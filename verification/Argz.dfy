/** NUL-separated vectors: `__argz_next`, the two loops documented with it, and what they visit. */
module Argz {
  import opened Common

  ghost predicate HasNul(mem: seq<Byte>, p: nat) {
    exists i :: p <= i < |mem| && mem[i] == 0
  }

  predicate NulFree(w: seq<Byte>) {
    forall i :: 0 <= i < |w| ==> w[i] != 0
  }

  /** There is no NUL from `p` on before `e`. */
  predicate NoneBefore(mem: seq<Byte>, p: nat, e: nat)
    requires e <= |mem|
    decreases e - p
  {
    p >= e || (mem[p] != 0 && NoneBefore(mem, p + 1, e))
  }

  /** `strchr (p, '\0')` */
  function StrEnd(mem: seq<Byte>, p: nat): (e: nat)
    requires HasNul(mem, p)
    ensures p <= e < |mem| && mem[e] == 0 && NoneBefore(mem, p, e)
    decreases |mem| - p
  {
    if mem[p] == 0 then p else StrEnd(mem, p + 1)
  }

  lemma {:induction false} StrEndIsFirst(mem: seq<Byte>, p: nat, q: nat)
    requires p <= q < |mem| && mem[q] == 0
    ensures HasNul(mem, p) && StrEnd(mem, p) <= q
    ensures NulFree(mem[p..StrEnd(mem, p)])
    decreases |mem| - p
  {
    if mem[p] == 0 {
    } else {
      StrEndIsFirst(mem, p + 1, q);
      var e := StrEnd(mem, p);
      assert mem[p..e] == [mem[p]] + mem[p + 1..e];
    }
  }

  /** A vector of `len` bytes at `argz` in memory; address 0 is NULL, and an empty vector may be NULL. */
  predicate Vector(mem: seq<Byte>, argz: nat, len: nat) {
    && argz + len <= |mem|
    && (len > 0 ==> argz > 0 && mem[argz + len - 1] == 0)
  }

  /** `__argz_next` */
  function Next(mem: seq<Byte>, argz: nat, len: nat, entry: nat): nat
    requires 0 != entry < argz + len ==> HasNul(mem, entry)
  {
    if entry != 0 then
      var e := if entry < argz + len then StrEnd(mem, entry) + 1 else entry;
      if e >= argz + len then 0 else e
    else if len > 0 then argz else 0
  }

  /** The entries that a loop visits from `entry` on. */
  function Visited(mem: seq<Byte>, argz: nat, len: nat, entry: nat): seq<nat>
    requires Vector(mem, argz, len) && (entry != 0 ==> argz <= entry <= argz + len)
    decreases if entry == 0 then 0 else argz + len - entry + 1
  {
    if entry == 0 then []
    else
      assert entry < argz + len ==> mem[argz + len - 1] == 0;
      [entry] + Visited(mem, argz, len, Next(mem, argz, len, entry))
  }

  lemma VisitedStep(mem: seq<Byte>, argz: nat, len: nat, entry: nat, before: seq<nat>)
    requires Vector(mem, argz, len) && 0 < argz <= entry <= argz + len
    ensures entry < argz + len ==> HasNul(mem, entry)
    ensures var e := Next(mem, argz, len, entry);
      && (e != 0 ==> entry < e < argz + len)
      && before + Visited(mem, argz, len, entry) == before + [entry] + Visited(mem, argz, len, e)
  {
    assert entry < argz + len ==> mem[argz + len - 1] == 0;
  }

  // ---- What a vector stands for ----

  function Flatten(words: seq<seq<Byte>>): seq<Byte> {
    if words == [] then [] else words[0] + [0] + Flatten(words[1..])
  }

  predicate AllNulFree(words: seq<seq<Byte>>) {
    forall i :: 0 <= i < |words| ==> NulFree(words[i])
  }

  /** From `p` to `hi`, memory holds words that are all ended by a NUL. */
  predicate Terminated(mem: seq<Byte>, p: nat, hi: nat) {
    p <= hi <= |mem| && (p < hi ==> mem[hi - 1] == 0)
  }

  lemma EndsInside(mem: seq<Byte>, p: nat, hi: nat)
    requires Terminated(mem, p, hi) && p < hi
    ensures HasNul(mem, p) && StrEnd(mem, p) < hi && NulFree(mem[p..StrEnd(mem, p)])
  {
    StrEndIsFirst(mem, p, hi - 1);
  }

  /** The words from `p` to `hi`: what lies between the NULs. */
  function Words(mem: seq<Byte>, p: nat, hi: nat): seq<seq<Byte>>
    requires Terminated(mem, p, hi)
    decreases hi - p
  {
    if p == hi then []
    else
      EndsInside(mem, p, hi);
      var e := StrEnd(mem, p);
      [mem[p..e]] + Words(mem, e + 1, hi)
  }

  lemma WordsCons(mem: seq<Byte>, p: nat, hi: nat)
    requires Terminated(mem, p, hi) && p < hi
    ensures HasNul(mem, p) && StrEnd(mem, p) < hi && NulFree(mem[p..StrEnd(mem, p)])
    ensures var e := StrEnd(mem, p); Words(mem, p, hi) == [mem[p..e]] + Words(mem, e + 1, hi)
  {
    EndsInside(mem, p, hi);
  }

  lemma FlattenCons(w: seq<Byte>, words: seq<seq<Byte>>, whole: seq<Byte>)
    requires NulFree(w) && AllNulFree(words) && whole == w + [0] + Flatten(words)
    ensures Flatten([w] + words) == whole && AllNulFree([w] + words)
  {
    assert ([w] + words)[1..] == words;
  }

  lemma SliceAtNul(mem: seq<Byte>, p: nat, e: nat, hi: nat)
    requires p <= e < hi <= |mem| && mem[e] == 0
    ensures mem[p..hi] == mem[p..e] + [0] + mem[e + 1..hi]
  {
  }

  /** Every vector is rebuilt by its words, each followed by a NUL. */
  lemma {:induction false} WordsRebuild(mem: seq<Byte>, p: nat, hi: nat)
    requires Terminated(mem, p, hi)
    ensures Flatten(Words(mem, p, hi)) == mem[p..hi] && AllNulFree(Words(mem, p, hi))
    decreases hi - p
  {
    if p == hi {
    } else {
      WordsCons(mem, p, hi);
      var e := StrEnd(mem, p);
      WordsRebuild(mem, e + 1, hi);
      SliceAtNul(mem, p, e, hi);
      FlattenCons(mem[p..e], Words(mem, e + 1, hi), mem[p..hi]);
    }
  }

  /** The first word of a flattened list ends at the first NUL. */
  lemma FirstWord(mem: seq<Byte>, p: nat, hi: nat, w: seq<Byte>, rest: seq<Byte>)
    requires p <= hi <= |mem| && mem[p..hi] == w + [0] + rest && NulFree(w)
    ensures var e := p + |w|;
      HasNul(mem, p) && StrEnd(mem, p) == e < hi && mem[p..e] == w && mem[e + 1..hi] == rest
  {
    var v, e := mem[p..hi], p + |w|;
    assert mem[e] == v[|w|] == 0;
    assert v[..|w|] == w && v[|w| + 1..] == rest;
    assert mem[p..e] == v[..|w|] && mem[e + 1..hi] == v[|w| + 1..];
    StrEndIsFirst(mem, p, e);
    assert forall i :: p <= i < e ==> mem[i] == mem[p..e][i - p];
  }

  lemma WordsPrepend(mem: seq<Byte>, p: nat, hi: nat, words: seq<seq<Byte>>)
    requires words != [] && p + |words[0]| < hi <= |mem|
    requires HasNul(mem, p) && StrEnd(mem, p) == p + |words[0]| && mem[p..p + |words[0]|] == words[0]
    requires var next := p + |words[0]| + 1; Terminated(mem, next, hi) && Words(mem, next, hi) == words[1..]
    ensures Terminated(mem, p, hi) && Words(mem, p, hi) == words
  {
    WordsCons(mem, p, hi);
    assert words == [words[0]] + words[1..];
  }

  /** And every list of words without NUL comes back from the vector made of it. */
  lemma {:induction false} WordsOfFlatten(mem: seq<Byte>, p: nat, hi: nat, words: seq<seq<Byte>>)
    requires AllNulFree(words) && p <= hi <= |mem| && mem[p..hi] == Flatten(words)
    ensures Terminated(mem, p, hi) && Words(mem, p, hi) == words
    decreases |words|
  {
    if words == [] {
      assert |mem[p..hi]| == hi - p;
    } else {
      FirstWord(mem, p, hi, words[0], Flatten(words[1..]));
      WordsOfFlatten(mem, p + |words[0]| + 1, hi, words[1..]);
      WordsPrepend(mem, p, hi, words);
    }
  }

  // ---- What the loops visit ----

  /** Where the words start when they are laid out, each with its NUL, from `from` on. */
  function Starts(from: nat, words: seq<seq<Byte>>): seq<nat>
    decreases |words|
  {
    if words == [] then [] else [from] + Starts(from + |words[0]| + 1, words[1..])
  }

  lemma StartsCons(from: nat, w: seq<Byte>, words: seq<seq<Byte>>)
    ensures Starts(from, [w] + words) == [from] + Starts(from + |w| + 1, words)
  {
    assert ([w] + words)[1..] == words;
  }

  lemma StartsOfWords(mem: seq<Byte>, p: nat, hi: nat)
    requires Terminated(mem, p, hi) && p < hi
    ensures HasNul(mem, p) && StrEnd(mem, p) < hi && NulFree(mem[p..StrEnd(mem, p)])
    ensures var e := StrEnd(mem, p);
      Starts(p, Words(mem, p, hi)) == [p] + Starts(e + 1, Words(mem, e + 1, hi))
  {
    WordsCons(mem, p, hi);
    var e := StrEnd(mem, p);
    StartsCons(p, mem[p..e], Words(mem, e + 1, hi));
  }

  /** `w` is the C string at `p`. */
  predicate IsWordAt(mem: seq<Byte>, p: nat, w: seq<Byte>) {
    p + |w| < |mem| && mem[p..p + |w|] == w && mem[p + |w|] == 0 && NulFree(w)
  }

  /** `starts` are increasing addresses from `p` on, and at each is its word. */
  predicate InOrder(mem: seq<Byte>, p: nat, starts: seq<nat>, words: seq<seq<Byte>>) {
    && |starts| == |words|
    && (forall i :: 0 <= i < |words| ==> p <= starts[i] && IsWordAt(mem, starts[i], words[i]))
    && (forall i, j :: 0 <= i < j < |starts| ==> starts[i] < starts[j])
  }

  lemma InOrderCons(mem: seq<Byte>, p: nat, starts: seq<nat>, e: nat, words: seq<seq<Byte>>)
    requires p <= e < |mem| && mem[e] == 0 && NulFree(mem[p..e])
    requires InOrder(mem, e + 1, starts, words)
    ensures InOrder(mem, p, [p] + starts, [mem[p..e]] + words)
  {
    assert IsWordAt(mem, p, mem[p..e]);
  }

  /** Starts are strictly increasing, and at each of them is the C string it stands for. */
  lemma {:induction false} StartsInOrder(mem: seq<Byte>, p: nat, hi: nat)
    requires Terminated(mem, p, hi)
    ensures InOrder(mem, p, Starts(p, Words(mem, p, hi)), Words(mem, p, hi))
    decreases hi - p
  {
    if p == hi {
    } else {
      WordsCons(mem, p, hi);
      StartsOfWords(mem, p, hi);
      var e := StrEnd(mem, p);
      StartsInOrder(mem, e + 1, hi);
      InOrderCons(mem, p, Starts(e + 1, Words(mem, e + 1, hi)), e, Words(mem, e + 1, hi));
    }
  }

  /** The addresses after the NULs from `p` to `hi`, and `p` itself. */
  function EntriesIn(mem: seq<Byte>, p: nat, hi: nat): seq<nat>
    requires Terminated(mem, p, hi)
    decreases hi - p
  {
    if p == hi then []
    else
      EndsInside(mem, p, hi);
      [p] + EntriesIn(mem, StrEnd(mem, p) + 1, hi)
  }

  lemma {:induction false} EntriesAreStarts(mem: seq<Byte>, p: nat, hi: nat)
    requires Terminated(mem, p, hi)
    ensures EntriesIn(mem, p, hi) == Starts(p, Words(mem, p, hi))
    decreases hi - p
  {
    if p == hi {
    } else {
      StartsOfWords(mem, p, hi);
      EntriesAreStarts(mem, StrEnd(mem, p) + 1, hi);
    }
  }

  lemma EntriesCons(mem: seq<Byte>, argz: nat, len: nat, entry: nat)
    requires Vector(mem, argz, len) && 0 < argz <= entry < argz + len
    ensures HasNul(mem, entry)
    ensures var e := Next(mem, argz, len, entry);
      && (e != 0 ==> entry < e < argz + len)
      && Visited(mem, argz, len, entry) == [entry] + Visited(mem, argz, len, e)
      && EntriesIn(mem, entry, argz + len) ==
         [entry] + if e == 0 then [] else EntriesIn(mem, e, argz + len)
  {
    EndsInside(mem, entry, argz + len);
  }

  lemma {:induction false} VisitsRest(mem: seq<Byte>, argz: nat, len: nat, entry: nat)
    requires Vector(mem, argz, len) && 0 < argz <= entry < argz + len
    ensures Visited(mem, argz, len, entry) == EntriesIn(mem, entry, argz + len)
    decreases argz + len - entry
  {
    EntriesCons(mem, argz, len, entry);
    var next := Next(mem, argz, len, entry);
    if next == 0 {
    } else {
      VisitsRest(mem, argz, len, next);
    }
  }

  /** The documented while loop visits every word of the vector once, in order, and then ends. */
  lemma WhileLoopVisitsAll(mem: seq<Byte>, argz: nat, len: nat)
    requires Vector(mem, argz, len)
    ensures Visited(mem, argz, len, Next(mem, argz, len, 0)) ==
            Starts(argz, Words(mem, argz, argz + len))
    ensures InOrder(mem, argz, Starts(argz, Words(mem, argz, argz + len)),
                    Words(mem, argz, argz + len))
    ensures Flatten(Words(mem, argz, argz + len)) == mem[argz..argz + len]
  {
    if len > 0 {
      VisitsRest(mem, argz, len, argz);
    }
    EntriesAreStarts(mem, argz, argz + len);
    StartsInOrder(mem, argz, argz + len);
    WordsRebuild(mem, argz, argz + len);
  }

  /** Writing any words one after the other and iterating gives the words back. */
  lemma RoundTrip(mem: seq<Byte>, argz: nat, len: nat, words: seq<seq<Byte>>)
    requires AllNulFree(words) && 0 < argz && argz + len <= |mem|
    requires mem[argz..argz + len] == Flatten(words)
    ensures Vector(mem, argz, len)
    ensures Visited(mem, argz, len, Next(mem, argz, len, 0)) == Starts(argz, words)
    ensures InOrder(mem, argz, Starts(argz, words), words)
  {
    WordsOfFlatten(mem, argz, argz + len, words);
    WhileLoopVisitsAll(mem, argz, len);
  }

  /**
   The documentation presents the two loops as alternatives. The for loop visits one entry of an
   empty vector whose pointer is not NULL; otherwise, and only otherwise, the loops agree.
   */
  lemma LoopsAgreeExactly(mem: seq<Byte>, argz: nat, len: nat)
    requires Vector(mem, argz, len)
    ensures Visited(mem, argz, len, argz) == Visited(mem, argz, len, Next(mem, argz, len, 0))
            <==> (len > 0 || argz == 0)
    ensures len == 0 && argz != 0 ==> Visited(mem, argz, len, argz) == [argz]
  {
    if len == 0 && argz != 0 {
      VisitedStep(mem, argz, len, argz, []);
    }
  }

  // ---- The documented loops ----

  /** The first iteration style documented with `argz_next`: a while loop that starts from NULL. */
  method WhileLoop(mem: seq<Byte>, argz: nat, len: nat) returns (visited: seq<nat>)
    requires Vector(mem, argz, len)
    ensures visited == Starts(argz, Words(mem, argz, argz + len))
    ensures InOrder(mem, argz, visited, Words(mem, argz, argz + len))
  {
    visited := [];
    var entry := Next(mem, argz, len, 0);
    ghost var all := Visited(mem, argz, len, entry);
    while entry != 0
      invariant entry != 0 ==> 0 < argz <= entry < argz + len
      invariant visited + Visited(mem, argz, len, entry) == all
      decreases if entry == 0 then 0 else argz + len - entry
    {
      VisitedStep(mem, argz, len, entry, visited);
      visited := visited + [entry];
      entry := Next(mem, argz, len, entry);
    }
    WhileLoopVisitsAll(mem, argz, len);
  }

  /** The second style: a for loop that starts from the vector itself. */
  method ForLoop(mem: seq<Byte>, argz: nat, len: nat) returns (visited: seq<nat>)
    requires Vector(mem, argz, len)
    ensures len > 0 || argz == 0 ==>
              && visited == Starts(argz, Words(mem, argz, argz + len))
              && InOrder(mem, argz, visited, Words(mem, argz, argz + len))
    ensures len == 0 && argz != 0 ==> visited == [argz]
  {
    visited := [];
    var entry := argz;
    ghost var all := Visited(mem, argz, len, entry);
    while entry != 0
      invariant entry != 0 ==> 0 < argz <= entry <= argz + len
      invariant visited + Visited(mem, argz, len, entry) == all
      decreases if entry == 0 then 0 else argz + len - entry + 1
    {
      VisitedStep(mem, argz, len, entry, visited);
      visited := visited + [entry];
      entry := Next(mem, argz, len, entry);
    }
    WhileLoopVisitsAll(mem, argz, len);
    LoopsAgreeExactly(mem, argz, len);
  }

}
