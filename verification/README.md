# A verified model of the proxy and of three header algorithms

The project models four pieces of the repository and proves what they guarantee, for all inputs,
all runs and any number of connections.

**The two-way proxy** (`libevent_t/proxy.cpp`). Every accepted client gets two buffer events that
point at each other. Five callbacks move bytes between them, choke a side whose partner has
512 KiB unsent, release it at 256 KiB, and shut a pair down by flushing what is left and closing.

- `BufferEvents` holds what is assumed of libevent, as operations on values. Callbacks are deferred,
  so a network step only marks them as due. Touching a freed object is a fault, not a precondition.
- `ProxyCallbacks` follows the callbacks statement by statement, and defines one step of the program:
  a callback, an accept, or the network acting on one socket.
- `ProxyInvariant` has the inductive invariant. It is stated for an object and the other half made by
  the same accept, and `OnPair` gives the exact effect of each step on such a pair.
- `ProxyRuns`, `ProxyFlow`, `ProxyWork` and `ProxyLoss` prove the guarantees over whole runs. `Arrived` and `Left`
  are the bytes that entered and left a socket, read off the steps of the run.
- `ProxyObjects` has the code in its own form: buffer event objects with pointers, updated in place.
  Its class invariant says that the heap is always in the last state of a run of the model, so every
  theorem about runs holds of it.

**The object stack** (`inc/include/obstack.h`). `Alignment` treats the address rounding bit by bit.
`Obstack` gives every macro as a function over a flat memory, with the layout invariant.
`ObstackSteps` proves that each operation refines a step of a plain stack of byte strings, and
`ObstackRuns` what holds over any sequence of operations; `ObstackLayout` says where objects start,
which chunks are kept and what is written. `ObstackMacros` has the GNU and the portable macros as
imperative code; both are proved against the same functions.

**The pattern reader** (`inc/include/regexp.h`). `RegexpCompile` models the loop of `compile`, with
an `alloca` that may return any block not allocated before.

**The vector iterator** (`inc/include/argz.h`). `Argz` models `__argz_next` and the two documented
loops.

Assumed of libevent, which is not part of this model:

- `evbuffer_add_buffer` appends the whole source to the destination and empties the source.
- A due callback runs whatever is installed when it runs. A freed object runs none.
- A write callback falls due only if one is installed, and only after a socket write that leaves at
  most the low mark.
- No byte is read while reading is off or after the stream has ended. On the end of the stream the
  library turns reading off itself; on a failed write it turns writing off.

Three expectations turn out to be false of the code, and are replaced by the exact condition:

- A side closed by its own event does not deliver everything. It loses exactly what it still owed its
  socket, so it delivered in full if and only if it owed nothing (`ProxyRuns.LostByOwnEvent`);
  `ProxyLoss.BytesCanBeLost` is a run in which a byte is lost.
- A finished object of an object stack need not be aligned. It is unaligned if and only if
  `object_base` stands at an unaligned chunk limit, and then it is empty
  (`ObstackRuns.UnalignedExactlyAtLimit`, `ObstackRuns.EmptyObjectIsUnaligned`).
- The two documented `argz_next` loops are not equivalent. The for loop visits one bogus entry of an
  empty vector whose pointer is not NULL; they agree if and only if the vector is not of that kind
  (`Argz.LoopsAgreeExactly`).

## Model

| member | source | states |
|---|---|---|
| ProxyObjects.OnRead | libevent_t/proxy.cpp:27-50 | in place: the whole input goes to the end of the partner's output; from 524288 bytes on the partner is set to drain, with marks 262144 and 524288, and the reader stops reading; below that neither changes; without partner the input is emptied |
| ProxyObjects.OnDrained | libevent_t/proxy.cpp:52-65 | in place: the drained side goes back to plain forwarding with zero marks, and its partner reads again |
| ProxyObjects.OnFinished | libevent_t/proxy.cpp:93-100 | in place: frees the object exactly when its output is empty |
| ProxyObjects.OnEvent | libevent_t/proxy.cpp:102-146 | in place: other events change nothing; on EOF or error the partner gets the rest of the input and is freed or left flushing, and the object itself is freed |
| ProxyObjects.OpenPair | libevent_t/proxy.cpp:67-91 | two fresh objects that point at each other and read and write, or two freed ones if the connect fails |
| ProxyObjects.EventBase.OnAccept | libevent_t/proxy.cpp:67-91 | a pair is added and every older object is untouched; the heap follows a run of the model |
| ProxyObjects.EventBase.RunRead | libevent_t/proxy.cpp:27-50 | running a due read callback touches live objects only and extends the run of the model by that step |
| ProxyObjects.EventBase.RunWrite | libevent_t/proxy.cpp:52-100 | the same for the write callback that is installed at that moment |
| ProxyObjects.EventBase.RunEvent | libevent_t/proxy.cpp:102-146 | the same for the event callback with any of the events that are due |
| ProxyObjects.EventBase.Network | libevent_t/proxy.cpp:70-74 | the same for bytes arriving or leaving and for streams that end; callbacks are only marked as due |
| ProxyInvariant.ReadOnPair | libevent_t/proxy.cpp:27-50 | on two live objects the read callback succeeds and changes those two and nothing else, in the stated way |
| ProxyInvariant.DrainedOnPair | libevent_t/proxy.cpp:52-65 | the same for the drained callback |
| ProxyInvariant.EventOnPair | libevent_t/proxy.cpp:102-146 | the same for the event callback, flush included |
| ProxyInvariant.AcceptAppends | libevent_t/proxy.cpp:67-91 | an accept appends one pair and keeps all other objects |
| ProxyInvariant.StepKeeps | libevent_t/proxy.cpp:27-146 | every step the event loop can take succeeds, without touching a freed object, and keeps the invariant of all pairs |
| ProxyRuns.NeverUsesFreed | libevent_t/proxy.cpp:46-144 | after any run, no step that can be taken touches a freed object |
| ProxyRuns.PartnersMatch | libevent_t/proxy.cpp:86-87 | in every reachable state partner pointers are mutual, never to itself, and lead to live objects |
| ProxyRuns.FreedForGood | libevent_t/proxy.cpp:98-144 | a freed object never changes again, so it is freed once |
| ProxyRuns.Isolated | libevent_t/proxy.cpp:29-46 | a step on one connection leaves every object of all others as it was |
| ProxyRuns.OtherEventsChangeNothing | libevent_t/proxy.cpp:106-106 | over any run, an event that is neither the end of the stream nor an error leaves every object as it was |
| ProxyRuns.LogIsTrace | libevent_t/proxy.cpp:30-39 | the histories kept in the state are exactly what the steps of the run did to the sockets |
| ProxyRuns.StreamsInOrder | libevent_t/proxy.cpp:27-146 | at every moment of every run, also after shutdown, what left one socket is a prefix of what arrived on the other; while linked, the rest is exactly output plus unread input |
| ProxyRuns.DeliveredInFull | libevent_t/proxy.cpp:93-144 | a side freed for any reason but its own event has, for ever, sent everything that arrives on the other side |
| ProxyRuns.LostByOwnEvent | libevent_t/proxy.cpp:106-144 | a side closed by its own event loses exactly its output and its partner's unread input; it delivered in full if and only if those were empty |
| ProxyLoss.BytesCanBeLost | libevent_t/proxy.cpp:102-146 | a concrete run: a byte arrives from the server, the client ends its stream, and the byte never reaches the client |
| ProxyRuns.NothingMoreArrives | libevent_t/proxy.cpp:134-144 | once one half is freed, no more bytes are read from the other |
| ProxyFlow.PairIsQueue | libevent_t/proxy.cpp:30-39 | each direction of a linked pair is one FIFO queue: arrivals go to the back, departures leave from the front, no other step changes it |
| ProxyFlow.QueueCanMove | libevent_t/proxy.cpp:38-49 | bytes on their way are never stuck: some step moves them on or closes the partner |
| ProxyFlow.ChokeIsExact | libevent_t/proxy.cpp:41-64 | while its stream has not ended, a side has reading off if and only if its partner waits to drain; otherwise the partner has fewer than 524288 unsent bytes; whenever the partner waits, ended or not, the side is not reading, has no unread input, and the drained callback is ready exactly from 262144 bytes down |
| ProxyFlow.ReadingSwitches | libevent_t/proxy.cpp:41-63 | over any step, a side stops reading only at the end of its stream or with 524288 bytes in its partner, and starts again only when these are down to 262144 |
| ProxyFlow.CallbacksHavePartners | libevent_t/proxy.cpp:32-61 | the discarding branch of the read callback and the null test of the drained callback are never taken |
| ProxyFlow.OutputBounded | libevent_t/proxy.cpp:20-49 | if callbacks find at most R unread bytes, every output stays below 524288 + R bytes over the whole run, flush included |
| ProxyFlow.DrainsArePaid | libevent_t/proxy.cpp:41-63 | 262144 times the number of drained callbacks is at most the number of bytes that left the socket |
| ProxyFlow.FlushEnds | libevent_t/proxy.cpp:93-135 | flush-then-close is never left; a flushing side always has a step to take and is freed after at most 2 * output + 1 of its own steps |
| ProxyWork.LoopNeverSpins | libevent_t/proxy.cpp:27-146 | over any run, the number of callbacks and socket writes is bounded by what the network put in |
| Alignment.AndNotRounds | inc/include/obstack.h:128-128 | clearing the bits of a mask rounds down to a multiple of its power of two |
| Alignment.AlignIsLeast | inc/include/obstack.h:124-139 | the aligned address is the least one from P on at a multiple of A + 1 from B, for every power of two A + 1 |
| Alignment.OnGridIsMultiple | inc/include/obstack.h:124-126 | lying on the grid of an alignment, defined by repeated subtraction, is the same as leaving no remainder modulo A + 1 |
| Obstack.BeginIsGood | inc/include/obstack.h:286-289 | an empty stack with one chunk satisfies the layout invariant |
| ObstackLayout.FirstObjectIsLeast | inc/include/obstack.h:286-289 | its first object starts at the least aligned address after the 16 bytes of the chunk header |
| ObstackLayout.MovedObjectIsLeast | inc/include/obstack.h:79-82 | an object that moves starts at the least aligned address after the header of the new chunk, at the same size |
| Obstack.NewChunkKeeps | inc/include/obstack.h:79-82 | moving the growing object to any fresh chunk keeps the layout invariant and with it all finished objects, whether or not the old chunk is given back |
| Obstack.DropsNoObject | inc/include/obstack.h:170-173 | the maybe-empty flag is enough: a chunk that may be given back holds no finished object, not even an empty one |
| Obstack.FinishKeeps | inc/include/obstack.h:381-394 | finishing keeps the layout invariant, also where the end is clamped to the chunk limit |
| Obstack.FinishStartsAfter | inc/include/obstack.h:387-393 | the next object starts at the least aligned address from the end of the finished one on, if the chunk has one, and at the chunk limit otherwise |
| ObstackLayout.AllocationsInARow | inc/include/obstack.h:361-394 | after any allocation, the next non-empty one that fits has the least aligned address behind the end of the first |
| ObstackLayout.StepChain | inc/include/obstack.h:79-82 | an operation moves the object exactly if the room asked for is not there; then the chain is the older chunks, the old current one if and only if it was not given back, and the new one; otherwise it is unchanged |
| ObstackLayout.ChainGrowsByKept | inc/include/obstack.h:79-82 | a sequence without frees adds one chunk for every move that keeps the chunk it leaves, on top of the older ones |
| ObstackLayout.DroppingKeepsLength | inc/include/obstack.h:79-82 | if every move gives its chunk back, the number of chunks stays the same |
| ObstackLayout.StepWrites | inc/include/obstack.h:275-402 | an operation writes only the bytes it was given, behind the growing object, or inside a new chunk; blanks, finishes and frees write nothing |
| ObstackLayout.StepFlag | inc/include/obstack.h:170-173 | the maybe-empty flag goes up exactly for an empty object or an unwound chunk, and down exactly with a new chunk |
| ObstackLayout.FlagIsExact | inc/include/obstack.h:170-173 | over any sequence without frees, the flag is up if and only if the current chunk holds an empty object |
| Obstack.FreeUnwinds | inc/include/obstack.h:396-402 | the range test in the current chunk gives the same state as the search through all chunks, and freeing a live object never aborts |
| Obstack.FreeFailsExactly | inc/include/obstack.h:396-402 | for any address at all, freeing fails if and only if no chunk covers it |
| Obstack.FreeKeeps | inc/include/obstack.h:97-99 | freeing a live object keeps the layout invariant; the stack ends with the chunk of that object, and the next object starts where it stood |
| ObstackSteps.StepKeeps | inc/include/obstack.h:275-402 | every operation succeeds, keeps the layout invariant, and changes the bytes in memory as the same operation changes a plain stack of byte strings |
| ObstackSteps.ViewIsHistory | inc/include/obstack.h:72-82 | what memory holds at the objects is exactly what the client put in |
| ObstackRuns.RunRefinesPlain | inc/include/obstack.h:28-33 | so does every sequence of operations, however often chunks change |
| ObstackRuns.GrowingIsContiguous | inc/include/obstack.h:72-82 | whatever was grown since the last finish stands at object_base, each piece at its offset, with arbitrary bytes in blank gaps and without what a negative blank took back |
| ObstackRuns.GrowingIsConcatenation | inc/include/obstack.h:72-82 | without blanks, the bytes at object_base are the concatenation of everything grown |
| ObstackRuns.ObjectsStay | inc/include/obstack.h:76-77 | a finished object keeps its address and bytes over any sequence that does not free it or an older one |
| ObstackRuns.PointersInChunk | inc/include/obstack.h:150-156 | after any sequence of operations, contents of the current chunk <= object_base <= next_free <= chunk_limit |
| ObstackRuns.ObjectInPlace | inc/include/obstack.h:88-94 | a finished object lies inside its chunk and clear of the growing object, and is aligned unless it is empty |
| ObstackRuns.ObjectsApart | inc/include/obstack.h:88-95 | no two non-empty finished objects overlap, in whatever chunks they lie |
| ObstackRuns.FreeUndoes | inc/include/obstack.h:97-99 | whatever was done since, freeing an object leaves chunks, pointers and older objects as if it had been freed at once |
| ObstackRuns.FreedSpaceIsReused | inc/include/obstack.h:361-402 | an allocation that fits after a free returns the freed address again |
| ObstackRuns.UnalignedExactlyAtLimit | inc/include/obstack.h:387-393 | the finished object is unaligned if and only if it starts at an unaligned chunk limit, and then it is empty |
| ObstackRuns.EmptyObjectIsUnaligned | inc/include/obstack.h:390-393 | filling any chunk that ends unaligned and finishing once more gives an unaligned object |
| ObstackRuns.ChunkMayEndUnaligned | inc/include/obstack.h:145-147 | a chunk at an aligned address that ends unaligned, as a concrete case |
| ObstackMacros.Obstack.Memcpy | inc/include/obstack.h:297-297 | the bytes land at the given address and every other byte of memory is as before |
| ObstackMacros.Obstack.NewChunk | inc/include/obstack.h:79-82 | the growing object, byte for byte, continues at the aligned start of the new chunk, which is now the current one; the chain is one longer exactly if the old chunk is not given back |
| ObstackMacros.Obstack.MakeRoom | inc/include/obstack.h:275-281 | afterwards the length fits; the object moves only if it did not fit before; the slot temp is not used |
| ObstackMacros.Obstack.Grow | inc/include/obstack.h:291-299 | the bytes are appended to the growing object, in the old chunk if they fit and in a new one if not; temp is not used |
| ObstackMacros.Obstack.Grow0 | inc/include/obstack.h:301-310 | as Grow, with room asked for, and a zero byte added, in the same move |
| ObstackMacros.Obstack.OneGrow | inc/include/obstack.h:312-318 | the same state as growing by that one byte |
| ObstackMacros.Obstack.Blank | inc/include/obstack.h:352-359 | the growing object gets longer by bytes that memory already held, in the old chunk or a new one; with a negative length it gets shorter where it stands |
| ObstackMacros.Obstack.Finish | inc/include/obstack.h:381-394 | returns where the object has stood all along; the next one starts at the least aligned address behind it or, if the chunk has none, at the chunk limit; an empty object is remembered |
| ObstackMacros.Obstack.Allocate | inc/include/obstack.h:361-365 | the result is the address of the new object after any move |
| ObstackMacros.Obstack.Copy | inc/include/obstack.h:367-371 | the result is the address of an object that ends in the given bytes |
| ObstackMacros.Obstack.Copy0 | inc/include/obstack.h:373-377 | the result is the address of an object that ends in the given bytes and a zero |
| ObstackMacros.Obstack.FreeSlow | inc/include/obstack.h:189-189 | for any address, ends at the chunk that covers it with all later chunks given back, or, if no chunk does, with all chunks given back |
| ObstackMacros.Obstack.Free | inc/include/obstack.h:396-402 | for any address, NULL included, both branches reach the state of the value model, which for a live object is the unwound state of FreeUnwinds |
| ObstackMacros.Obstack.PortableMakeRoom | inc/include/obstack.h:424-427 | although it tests for room by another expression and works through temp, it ends in the same state as the GNU form |
| ObstackMacros.Obstack.PortableGrow | inc/include/obstack.h:429-434 | although it tests for room by another expression and works through temp, it ends in the same state as the GNU form |
| ObstackMacros.Obstack.PortableGrow0 | inc/include/obstack.h:436-442 | although it tests for room by another expression and works through temp, it ends in the same state as the GNU form |
| ObstackMacros.Obstack.PortableOneGrow | inc/include/obstack.h:444-447 | ends in the same state as the GNU form: growing by that one byte |
| ObstackMacros.Obstack.PortableBlank | inc/include/obstack.h:465-469 | although it works through temp, it ends in the same state as the GNU form, for negative lengths too |
| ObstackMacros.Obstack.PortableFinish | inc/include/obstack.h:480-492 | same state, same start of the next object and same result as the GNU form, although the result travels through temp |
| ObstackMacros.Obstack.PortableAllocate | inc/include/obstack.h:471-472 | same state and same address as the GNU form, although both of its parts use temp |
| ObstackMacros.Obstack.PortableCopy | inc/include/obstack.h:474-475 | same state and same address as the GNU form, although both of its parts use temp |
| ObstackMacros.Obstack.PortableCopy0 | inc/include/obstack.h:477-478 | same state and same address as the GNU form, although both of its parts use temp |
| ObstackMacros.Obstack.PortableFree | inc/include/obstack.h:494-500 | same state as the GNU form for any address, although it compares offsets in the chunk where the GNU form compares addresses |
| ObstackMacros.Obstack.GnuStep | inc/include/obstack.h:265-402 | each GNU macro keeps the layout invariant, and the bytes in memory change as the plain stack of byte strings says |
| ObstackMacros.Obstack.PortableStep | inc/include/obstack.h:406-500 | the same for each portable macro |
| ObstackMacros.Obstack.GnuRun | inc/include/obstack.h:265-402 | any sequence of operations ends in the state that the value model gives, which refines the plain stack of byte strings, with temp untouched |
| ObstackMacros.Obstack.PortableRun | inc/include/obstack.h:406-500 | the same sequence ends in the very same state, so the two families differ in temp only |
| RegexpCompile.PatternLength | inc/include/regexp.h:136-142 | the pattern ends at the first character that is eof, 0 or 10, or with the input |
| RegexpCompile.ToChar | inc/include/regexp.h:164-164 | a character from 0 to 255 is stored as itself, any other one modulo 256 |
| RegexpCompile.PlaceIsFirstAligned | inc/include/regexp.h:123-134 | the expression goes to the first aligned address after expbuf; error 50 if and only if a regex_t does not fit before endbuf; the rest is the space left |
| RegexpCompile.Frame.GetC | inc/include/regexp.h:49-51 | successive characters, then eof |
| RegexpCompile.Frame.UngetC | inc/include/regexp.h:58-59 | any character may be pushed back; it is the next one that GETC returns, before the rest of the input |
| RegexpCompile.Frame.Memcpy | inc/include/regexp.h:152-161 | copies between areas that must not overlap, and changes nothing else |
| RegexpCompile.Frame.GrowBuffer | inc/include/regexp.h:144-163 | the first block has 128 bytes; later a block of twice the size is joined with the buffer if it lies right below or right above, and replaces it otherwise; the characters read so far stay in front, and nothing is copied when the buffer grows upwards |
| RegexpCompile.Frame.PutChar | inc/include/regexp.h:144-164 | one character more, always with room left for the final NUL, and the cost stays paid for |
| RegexpCompile.Frame.ReadPattern | inc/include/regexp.h:136-169 | the buffer ends up with the very characters of the pattern and a NUL, no other memory changes, a newline or NUL is the next character to be read again, and at most twice the pattern length is ever copied |
| Argz.StrEnd | inc/include/argz.h:165-165 | the address of a NUL at or after the start, with none before it |
| Argz.StrEndIsFirst | inc/include/argz.h:165-165 | no NUL at or after the start comes earlier, and the string up to it is free of NUL |
| Argz.WhileLoop | inc/include/argz.h:142-144 | the loop ends, having visited the start of every word of the vector, once each, in increasing order |
| Argz.ForLoop | inc/include/argz.h:148-150 | the same, except that on an empty vector whose pointer is not NULL it visits that pointer |
| Argz.WhileLoopVisitsAll | inc/include/argz.h:138-171 | the entries visited are the starts of all words, once each, in increasing order; the words, each with its NUL, are the vector |
| Argz.WordsRebuild | inc/include/argz.h:35-37 | every vector is rebuilt by its words, each followed by a NUL |
| Argz.WordsOfFlatten | inc/include/argz.h:35-37 | every list of words without NUL is recovered from the vector made of it |
| Argz.RoundTrip | inc/include/argz.h:138-171 | writing any words one after the other and iterating visits exactly those words |
| Argz.LoopsAgreeExactly | inc/include/argz.h:140-150 | the two documented loops visit the same entries if and only if the vector is not empty or its pointer is NULL |

## Left out

- `main`, `syntax`, address parsing and the listener of the proxy: set-up around library calls.
- Failing allocation of a buffer event (`assert` in `accept_cb`): it ends the program.
- The connecting state of the outgoing socket: a socket that is not connected yet takes no network steps, which the model also allows.
- The high write mark has no effect in libevent; it is stored and nothing depends on it.
- Fairness: progress is stated as steps that can be taken and as bounds on their number, not as steps that are taken eventually.
- `libevent_t/test.cpp` is a one-sided, simpler version of the same flow control; the other programs in `libevent_t` and `openssl_t` are thin layers over libraries.
- ObstackMacros.Obstack.NewChunk: the header only declares the function, so the choice of the new size and the bytes of the chunk header are not modelled; the new chunk is any fresh one that is large enough.
- ObstackMacros.Obstack.FreeSlow: declared only, so what follows when no chunk covers the address (an abort or, for NULL, a return) is not modelled.
- ObstackMacros.Obstack.Blank: taking more bytes from the growing object than it has, which would move `next_free` below `object_base`, is left to the caller.
- Whole sequences of operations on an object stack free addresses of live objects only; a single free takes any address.
- Pointer arithmetic of the object stack is over unbounded integers: sums that wrap around the address space are not modelled.
- `obstack_object_size`, `obstack_room` and `obstack_empty_p` are read-only expressions; `obstack_ptr_grow` and `obstack_int_grow` are growth by the bytes of one datum.
- A failing chunk function: its handler does not return.
- RegexpCompile.Frame.ReadPattern: sizes are unbounded, so overflow of `size_t` is not modelled; `regcomp`, the error table after it and `step` and `advance` are left out.
- The other argz routines are only declared.
- All other headers hold declarations, constants and fixed bit-field macros, which would only add easy members.
