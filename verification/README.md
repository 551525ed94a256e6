# Models of the algorithms in the system headers

Five of the system headers are modelled here for the algorithms they hold as macros
or inline functions, and what each is for is proved.

- **Obstacks** (`obstack.h`): a region allocator. Memory is flat, from addresses
  to bytes; chunks are disjoint address ranges, kept in the order of their `prev`
  links, the oldest first. `ObstackModel` says what each operation computes;
  `ObstackLayout` and `ObstackRefinement` prove that a state stands for a stack of
  finished byte strings with one growing byte string on top; `ObstackRuns` and
  `ObstackTheorems` carry this over whole runs; `ObstackEffects` writes out what each
  call does to bytes, places, flag and allocated memory, apart from how the model
  computes it; and `ObstackExamples` has runs that reach the odd cases listed below.
  `ObstackStruct` is `struct obstack`
  with its fields updated in place. `ObstackGnu` and `ObstackPortable` are the two
  macro families as methods on it, each proved to take exactly one step of the
  specification, hence bisimilar (`ObstackBisimilar`). `Align` is the alignment
  macro, down to the bits.
- **Cleanup handlers** (`pthread.h`): `Cleanup` gives well-nested blocks a meaning
  and proves it equal to the handler stack of POSIX.1-2008, XSH section 2.9.5.3,
  for cancellation that strikes in bodies; `CleanupStrikes` adds strikes between the
  steps of a push or pop, where the forms part, and proves exactly when;
  `CleanupForms` has the three expansions of the macros (C++ class, cleanup
  attribute, registered jump buffer), proved to have these meanings.
- **Pattern reader** (`regexp.h`): `PatternReader` is the loop of `compile` that
  reads the pattern into a buffer grown with `alloca`.
- **Character I/O** (`libio.h`): `Streams` has the getc, peekc and putc macros over
  pointer windows, with refills and overflows of any size (ISO C99 sections
  7.19.7.5 and 7.19.7.8).
- **Argz vectors** (`argz.h`): `Argz` has the iterator and both documented loops.

How the outside world enters the model:

- `_obstack_newchunk`, the function `obstack_free` and `_obstack_begin` are
  declared but not defined in the header. They are modelled by what the header
  says of them. The allocator's answer to a call is a `Grant`, chosen freely among
  chunks that are disjoint from those in use and large enough; it also says whether
  a chunk that may be given back is given back. Addresses may be reused.
- The bytes copied by `obstack_grow` are given as a value. A source inside a live
  object reads the same before and after the object being grown moves
  (`ObstackRefinement.SourceInObject`); a source inside the growing object itself
  survives the move exactly when the old chunk is kept
  (`ObstackRefinement.SourceInGrowing`).
- Cancellation strikes where a countdown reaches zero; all theorems quantify over
  it. The countdown runs at the work statements of bodies and, as a parameter says,
  also after each step of a push or pop: always, or under asynchronous type, as
  deferred cancellation waits for a cancellation point. The steps of a push are
  arming the frame and setting the type; those of a pop are the end of the body,
  putting the type back and storing `execute`, before the handler call.
  `pthread_setcanceltype` and the register, unregister and unwind functions are
  modelled by their contracts. The header leaves open whether a deferring push
  changes the type before it puts the buffer on its list, and whether a restoring
  pop takes the buffer off before it puts the type back; a parameter stands for each,
  and such a buffer is off its list at the strike points in between. Finer strike
  points, at which the buffer is on its list and the frame armed, or neither, would
  not tell them apart. A strike between two statements of a body is one at a work
  statement put there.
- `alloca` returns any address range not yet allocated, holding any bytes.
  `__underflow`, `__uflow` and `__overflow` are modelled by their contracts; how much
  a refill brings, what an overflow leaves in the buffer and whether it fails are
  free choices.

Where the code does less than one might expect, the exact condition is proved, and
an input is given:

- The cleanup expansions part when cancellation strikes between the steps of a push
  or pop: a frame calls its handler, a buffer off its list does not. They agree at
  every strike exactly when the run that is not struck reaches no strike point, open
  under the type then in force, at which the frame is armed or holds a nonzero
  `execute` while the buffer is off its list. These points are the last one of a pop
  with nonzero `execute`, those of a deferring push that lists its buffer last, and
  those on both sides of the change of type in a restoring pop that takes its buffer
  off first (`CleanupStrikes.StrikesAgreeExactly`, `CleanupStrikes.StrikesTellApart`).
  The class and the attribute always agree.
- `__BPTR_ALIGN` rounds up for every address exactly when the mask is one of low
  bits (`Align.MaskDemandExact`).
- `obstack_finish` can leave `object_base` unaligned: exactly when no aligned address
  is left before the end of the chunk (`ObstackRefinement.CloseLeavesUnaligned`,
  reached in `ObstackExamples.FinishUnaligned`).
- `obstack_empty_p` can be true although objects of size zero are live, and false
  although nothing is live, when an older chunk was kept
  (`ObstackRefinement.EmptyPExact`, reached in `ObstackExamples.EmptyThoughLive` and
  `ObstackExamples.NotEmptyThoughNothingLive`).
- `regcomp` sees the whole pattern exactly when no character read is a nonzero
  multiple of 256 (`PatternReader.WholePatternSeen`, `PatternReader.PatternCutShort`).
- The comment in `regexp.h` speaks of aligning for `regex_t`; the code uses the
  alignment of a pointer, and always moves the buffer forward by at least one byte
  (`PatternReader.PrepareLeastAbove`).
- The two documented argz loops differ on an empty vector whose pointer is not null,
  where the second visits one entry that is not there (`Argz.StylesAgree`).

## Model
| member | source | states |
|---|---|---|
| Align.AndNotMask | sbt-sysheaders/include/obstack.h:123-127 | for a mask of low bits, clearing its bits is subtracting the remainder |
| Align.BptrAlignLeast | sbt-sysheaders/include/obstack.h:123-127 | the result is the least address at or above P at a whole number of steps from B, at most A bytes up |
| Align.BptrAlignFixed | sbt-sysheaders/include/obstack.h:123-127 | aligned addresses stay, and only they; aligning is idempotent |
| Align.BptrAlignMonotone | sbt-sysheaders/include/obstack.h:123-127 | aligning keeps the order of addresses |
| Align.BptrAlignRebase | sbt-sysheaders/include/obstack.h:129-138 | relative to any point of the same grid the result is the same address, so both modes agree on aligned bases |
| Align.MaskDemandExact | sbt-sysheaders/include/obstack.h:125-127 | A + 1 being a power of two is necessary and sufficient |
| ObstackLayout.StartBounds | sbt-sysheaders/include/obstack.h:142-147 | every object lies inside its chunk, behind the two pointers of the chunk's header and below the next starting point of that chunk |
| ObstackLayout.CloseStop | sbt-sysheaders/include/obstack.h:386-391 | aligning relative to the object's own base, with the clamp, agrees with aligning relative to the chunk or to address 0 |
| ObstackRefinement.NoOverlap | sbt-sysheaders/include/obstack.h:27-32 | finished objects overlap neither each other nor the growing one |
| ObstackRefinement.Aligned | sbt-sysheaders/include/obstack.h:129-138 | a live object of nonzero size is aligned, relative to address 0 or to its chunk by mode |
| ObstackRefinement.DropSafe | sbt-sysheaders/include/obstack.h:169-172 | the rule for giving a chunk back never covers a chunk with a live object, not even an empty one; with the flag clear it covers exactly the others |
| ObstackRefinement.NewChunkRefines | sbt-sysheaders/include/obstack.h:78-82 | moving the growing object to any granted chunk changes no byte of the abstract stack, whether the old chunk is dropped or kept |
| ObstackRefinement.PutRefines | sbt-sysheaders/include/obstack.h:290-298 | stored bytes extend the growing string and touch no live object |
| ObstackRefinement.ExtendRefines | sbt-sysheaders/include/obstack.h:351-358 | blanking lengthens the growing string by bytes found in memory, or cuts it when negative |
| ObstackRefinement.CloseRefines | sbt-sysheaders/include/obstack.h:380-393 | finishing turns the growing string into the newest object at the base, starts an empty one, and sets the flag exactly if the object is empty |
| ObstackRefinement.SourceInObject | sbt-sysheaders/include/obstack.h:290-298 | a source range inside a live object reads the same before and after room is made |
| ObstackRefinement.SourceInGrowing | sbt-sysheaders/include/obstack.h:290-298 | a source range inside the growing object survives its move if and only if the old chunk is kept, and then reads the same |
| ObstackRefinement.CloseLeavesUnaligned | sbt-sysheaders/include/obstack.h:386-392 | the base is left unaligned exactly when no aligned address is left before the chunk's end |
| ObstackRefinement.PaddingBounded | sbt-sysheaders/include/obstack.h:386-392 | finishing skips at most the mask's number of bytes |
| ObstackRefinement.FastTestExact | sbt-sysheaders/include/obstack.h:399-400 | the fast path is taken exactly for objects of the current chunk not at its very end; never for an older chunk's object, even one ending where the current header starts |
| ObstackRefinement.FreeToIs | sbt-sysheaders/include/obstack.h:188 | exactly the chunks above the one holding the address are released and no byte of them stays allocated, the flag is set if any was, and older memory is kept |
| ObstackRefinement.FreeRefines | sbt-sysheaders/include/obstack.h:395-401 | freeing object k leaves the stack of the first k objects, nothing growing, and object k's address as the base |
| ObstackRefinement.EmptyPExact | sbt-sysheaders/include/obstack.h:282-288 | true exactly when there is one chunk, nothing is growing and every live object has size zero |
| ObstackExamples.FinishUnaligned | sbt-sysheaders/include/obstack.h:386-392 | a run after which the base is unaligned |
| ObstackExamples.EmptyThoughLive | sbt-sysheaders/include/obstack.h:282-288 | a run after which the obstack counts as empty and an object is live |
| ObstackExamples.NotEmptyThoughNothingLive | sbt-sysheaders/include/obstack.h:282-288 | a run after which nothing is live or growing and the obstack does not count as empty |
| ObstackRuns.StepRefines | sbt-sysheaders/include/obstack.h:290-401 | every call keeps the invariant and acts on the stack of byte strings as specified |
| ObstackRuns.GrowThenFinish | sbt-sysheaders/include/obstack.h:360-376 | alloc, copy and copy0 are a growing call followed by finish, with the same pointer returned |
| ObstackTheorems.ReachableSafe | sbt-sysheaders/include/obstack.h:27-32 | in every state any run reaches: objects inside their chunks behind the chunk headers, no overlap, bytes in place, alignment in both modes, and safe chunk replacement |
| ObstackTheorems.ObjectsSurvive | sbt-sysheaders/include/obstack.h:71-76 | through any run, objects not freed keep address and bytes |
| ObstackTheorems.ChainKept | sbt-sysheaders/include/obstack.h:78-82 | through any run, the chunks up to that of an object not freed stay in the chain |
| ObstackTheorems.UnwindExact | sbt-sysheaders/include/obstack.h:95-98 | after any run that frees nothing older, freeing the first newer object restores the old stack |
| ObstackTheorems.FinishThenFree | sbt-sysheaders/include/obstack.h:395-401 | finish, any such run, then free of the pointer finish returned: same chunks, same base, same older objects |
| ObstackTheorems.GrowthFits | sbt-sysheaders/include/obstack.h:78-92 | through any run without finish or free, blanks of either sign included, every byte written to the growing string is at its place and its length is what was written and skipped less what was cut |
| ObstackTheorems.GrowthConcatenates | sbt-sysheaders/include/obstack.h:83-92 | if nothing was skipped or cut, it is the concatenation of what was appended |
| ObstackTheorems.FinishYieldsGrowth | sbt-sysheaders/include/obstack.h:360-393 | any finishing call after any such run returns the address of an object of exactly those bytes and that length |
| ObstackTheorems.FastGrowsArePut | sbt-sysheaders/include/obstack.h:245 | within the room at hand, unchecked grows stay in bounds and together are one store |
| ObstackTheorems.MakeRoomThenFast | sbt-sysheaders/include/obstack.h:274-280 | making room and growing byte by byte unchecked equals one checked grow |
| ObstackEffects.BytesAfter | sbt-sysheaders/include/obstack.h:290-401 | for every call, which bytes the growing string or the newest object then has, and which objects are left |
| ObstackEffects.PointerReturned | sbt-sysheaders/include/obstack.h:360-393 | finish, alloc, copy and copy0 return the address of the object they finish; no other call returns one |
| ObstackEffects.FirstExact | sbt-sysheaders/include/obstack.h:142-147 | the first object of a chunk starts at the least aligned address behind the two pointers of the header |
| ObstackEffects.FinishPlaces | sbt-sysheaders/include/obstack.h:386-392 | after a finishing call the base is the least aligned address from the object's end on or, if the chunk has none, the chunk's end |
| ObstackEffects.FreePlaces | sbt-sysheaders/include/obstack.h:395-401 | a free makes the object's address base and next_free, and its chunk the current one |
| ObstackEffects.AsksFor | sbt-sysheaders/include/obstack.h:274-376 | how many bytes each call asks for |
| ObstackEffects.ChunkIffNeeded | sbt-sysheaders/include/obstack.h:290-358 | a call takes a new chunk if and only if it asks for more bytes than are left; the old one goes exactly by the rule on the flag, and the object starts at the new chunk's first aligned address; make_room leaves the room asked for |
| ObstackEffects.FlagHistory | sbt-sysheaders/include/obstack.h:169-172 | after any run the flag is set if and only if, since the current chunk was granted, an empty object was finished or a free released a chunk, or it was set before and no chunk was granted |
| ObstackEffects.FlagExact | sbt-sysheaders/include/obstack.h:169-172 | from a new obstack on, the flag tells exactly that such a finish or free happened |
| ObstackEffects.MemoryOwned | sbt-sysheaders/include/obstack.h:32-34 | through any run, what is allocated is exactly what the chunks of the chain hold behind their headers: nothing leaks, and what is released is gone |
| ObstackEffects.WritesBehind | sbt-sysheaders/include/obstack.h:290-358 | a call that takes no chunk changes no byte but those it appends |
| ObstackStruct.Obstack.NewChunk | sbt-sysheaders/include/obstack.h:178-180 | contract of the chunk replacement on the fields; `temp` survives |
| ObstackStruct.Obstack.FreeFunction | sbt-sysheaders/include/obstack.h:188 | contract of the chunk-releasing function on the fields |
| ObstackStruct.Obstack.OneGrowFast | sbt-sysheaders/include/obstack.h:245 | stores one byte at the end of the growing object |
| ObstackRefinement.StretchRefines | sbt-sysheaders/include/obstack.h:247 | moving next_free up within the room makes the growing string take in exactly the bytes found there |
| ObstackGnu.MakeRoom | sbt-sysheaders/include/obstack.h:274-280 | one step of the specification; `temp` unused |
| ObstackGnu.Grow | sbt-sysheaders/include/obstack.h:290-298 | one step of the specification; `temp` unused |
| ObstackGnu.Grow0 | sbt-sysheaders/include/obstack.h:300-309 | one step: the bytes and one zero byte |
| ObstackGnu.OneGrow | sbt-sysheaders/include/obstack.h:311-317 | one step of the specification |
| ObstackGnu.PtrGrow | sbt-sysheaders/include/obstack.h:323-342 | one step: the bytes representing the pointer |
| ObstackGnu.IntGrow | sbt-sysheaders/include/obstack.h:330-349 | one step: the bytes representing the int |
| ObstackGnu.Blank | sbt-sysheaders/include/obstack.h:351-358 | one step of the specification, for negative lengths too |
| ObstackGnu.Finish | sbt-sysheaders/include/obstack.h:380-393 | one step, returning the base of the finished object; the flag is set if and only if it was or the object is empty |
| ObstackGnu.Alloc | sbt-sysheaders/include/obstack.h:360-364 | one step, returning the object's address |
| ObstackGnu.Copy | sbt-sysheaders/include/obstack.h:366-370 | one step, returning the object's address |
| ObstackGnu.Copy0 | sbt-sysheaders/include/obstack.h:372-376 | one step, returning the object's address |
| ObstackGnu.Free | sbt-sysheaders/include/obstack.h:395-401 | fast path and function agree: one step of the specification |
| ObstackPortable.MakeRoom | sbt-sysheaders/include/obstack.h:423-426 | the same step as the other family |
| ObstackPortable.Grow | sbt-sysheaders/include/obstack.h:428-433 | the same step as the other family |
| ObstackPortable.Grow0 | sbt-sysheaders/include/obstack.h:435-441 | the same step as the other family |
| ObstackPortable.OneGrow | sbt-sysheaders/include/obstack.h:443-446 | the same step as the other family |
| ObstackPortable.PtrGrow | sbt-sysheaders/include/obstack.h:448-459 | the same step, although next_free is advanced before the store |
| ObstackPortable.IntGrow | sbt-sysheaders/include/obstack.h:453-462 | the same step, although next_free is advanced before the store |
| ObstackPortable.Blank | sbt-sysheaders/include/obstack.h:464-468 | the same step as the other family |
| ObstackPortable.Finish | sbt-sysheaders/include/obstack.h:479-491 | the same step and pointer, kept in `temp` meanwhile; the flag is set if and only if it was or the object is empty |
| ObstackPortable.Alloc | sbt-sysheaders/include/obstack.h:470-471 | the same step and pointer as the other family |
| ObstackPortable.Copy | sbt-sysheaders/include/obstack.h:473-474 | the same step and pointer as the other family |
| ObstackPortable.Copy0 | sbt-sysheaders/include/obstack.h:476-477 | the same step and pointer as the other family |
| ObstackPortable.Free | sbt-sysheaders/include/obstack.h:493-499 | the same step, with the address rebuilt from an offset in `temp` |
| ObstackBisimilar.Bisimilar | sbt-sysheaders/include/obstack.h:264-499 | from equal states any run leaves equal states in every field but `temp`, and equal returned pointers |
| ObstackBisimilar.FromNew | sbt-sysheaders/include/obstack.h:219-227 | two obstacks begun on equal grants end any run with equal fields and returned pointers, in a state that is safe |
| Cleanup.BodyMatchesStack | sbt-sysheaders/include/pthread.h:579-594 | block structure agrees with the handler stack for any code around it and any handlers already pushed |
| Cleanup.ProgramMatchesStack | sbt-sysheaders/include/pthread.h:625-643 | a whole program leaves the trace the handler stack prescribes, and no handler behind |
| Cleanup.UnwindOrder | sbt-sysheaders/include/pthread.h:625-628 | exit or cancellation calls every open handler, innermost first, and no other |
| Cleanup.ExitOrStrike | sbt-sysheaders/include/pthread.h:579-585 | exit, and a work point that is struck, end the thread with every open handler called, innermost first; any other work point only does its work |
| Cleanup.Conservation | sbt-sysheaders/include/pthread.h:579-585 | at any time each push is accounted for once: open, run or discarded |
| Cleanup.HandlersOnce | sbt-sysheaders/include/pthread.h:579-591 | wherever the thread stops, each pushed handler was run once or discarded once, never both |
| Cleanup.DeferRestores | sbt-sysheaders/include/pthread.h:645-664 | a defer/restore pair puts back the type from before the push, before its handler runs |
| Cleanup.TypeBalanced | sbt-sysheaders/include/pthread.h:658-660 | a body that changes types only inside deferring blocks leaves the type as it was |
| CleanupForms.RunClass | sbt-sysheaders/include/pthread.h:562-611 | the class expansion has the meaning of the body for frames, struck after any step of a push or pop |
| CleanupStrikes.FrameCallsOnce | sbt-sysheaders/include/pthread.h:618-643 | over a block, however it is left or struck and whatever its body pushes, the frame's handler is called once besides the body's own calls if the push or body does not finish, a strike finds the frame armed, or `execute` is nonzero, and otherwise not at all |
| CleanupStrikes.CalledAtMostOnce | sbt-sysheaders/include/pthread.h:562-738 | for every program, in every form and at every strike, a handler is called at most once for each block that pushes it, and for no other reason |
| CleanupStrikes.StrikesInBodies | sbt-sysheaders/include/pthread.h:562-738 | with strikes in bodies only, every form has the meaning proved equal to the handler stack |
| CleanupStrikes.FormsAgree | sbt-sysheaders/include/pthread.h:562-738 | a program that is not exposed has one outcome in all forms, wherever a strike falls |
| CleanupStrikes.StrikesAgreeExactly | sbt-sysheaders/include/pthread.h:592-738 | for every program, the forms agree at every strike if and only if the run that is not struck reaches no open strike point at which the frame is armed, or holds a nonzero `execute`, while the buffer is off its list |
| CleanupStrikes.OnlyExecuteTells | sbt-sysheaders/include/pthread.h:696-738 | if the buffer is on its list whenever a frame would be armed, a strike tells the forms apart of a program exactly when, on the handler stack and without a strike, it comes to a pop that calls its handler under a type open to strikes |
| CleanupStrikes.StrikesTellApart | sbt-sysheaders/include/pthread.h:592-738 | four families of inputs on which a frame calls a handler and a jump buffer does not |
| CleanupStrikes.DeferredNeverExposed | sbt-sysheaders/include/pthread.h:596-611 | a program that never makes cancellation asynchronous is not exposed to strikes that wait for that |
| CleanupForms.RunAttribute | sbt-sysheaders/include/pthread.h:618-664 | the attribute expansion has the same meaning, struck after any step of a push or pop |
| CleanupForms.RunJumps | sbt-sysheaders/include/pthread.h:675-738 | the jump-buffer expansion has the meaning of the body for buffers, whatever the order of list and type changes, and hands control to the buffer registered before |
| CleanupForms.SameTraces | sbt-sysheaders/include/pthread.h:562-738 | class and attribute leave equal traces, types and outcomes at every strike; so does the jump buffer with strikes in bodies, or for any program that is not exposed |
| PatternReader.PrepareLeastAbove | sbt-sysheaders/include/regexp.h:114-133 | the object goes to the least aligned address above expbuf; error 50 exactly when it does not fit |
| PatternReader.Enlarge | sbt-sysheaders/include/regexp.h:143-162 | in all three cases the text is kept in a fully allocated, larger buffer, and the copy does not overlap |
| PatternReader.StoreChar | sbt-sysheaders/include/regexp.h:143-163 | one turn keeps a place for the NUL; it grows only when that place is the last |
| PatternReader.ReadPattern | sbt-sysheaders/include/regexp.h:135-168 | the buffer holds exactly the pattern, up to the first eof, NUL or newline, and a NUL, in bounds, of size at most max(128, 3n), with at most twice that allocated; an ending NUL or newline is put back |
| PatternReader.HoldsInput | sbt-sysheaders/include/regexp.h:163-167 | the buffer holds the characters read, each as it is if it fits in a byte and else reduced modulo 256, and a NUL behind them |
| PatternReader.WholePatternSeen | sbt-sysheaders/include/regexp.h:163-171 | the C string is the whole pattern exactly when no character is a nonzero multiple of 256 |
| PatternReader.PatternCutShort | sbt-sysheaders/include/regexp.h:163-171 | a pattern of the one character 256 is seen as empty |
| Prelude.ToByte | sbt-sysheaders/include/libio.h:412-415 | the cast to unsigned char: the value in 0..255 that differs from the character by a multiple of 256 |
| Streams.ToChar | sbt-sysheaders/include/libio.h:412-415 | the conversion to char: the value in -128..127 that differs from the character by a multiple of 256 |
| Streams.Unsigned | sbt-sysheaders/include/libio.h:405-411 | a char read as unsigned char: itself, or 256 more if negative |
| Streams.ReadStream.GetC | sbt-sysheaders/include/libio.h:405-407 | returns and consumes the next byte as an unsigned value, or EOF at the end |
| Streams.ReadStream.PeekC | sbt-sysheaders/include/libio.h:408-411 | returns what the next getc returns and consumes nothing |
| Streams.Reads | sbt-sysheaders/include/libio.h:405-411 | for any refills, a sequence of reads sees a plain byte sequence |
| Streams.ResultsAreContent | sbt-sysheaders/include/libio.h:405-411 | result k is the byte after as many bytes as there were gets before it; EOF exactly past the end |
| Streams.WriteStream.PutC | sbt-sysheaders/include/libio.h:412-415 | appends the character as unsigned char and returns that, or fails and appends nothing, but never while there is room |
| Streams.WriteStream.PendingOutputCount | sbt-sysheaders/include/libio.h:442-443 | the number of bytes not yet delivered |
| Streams.Puts | sbt-sysheaders/include/libio.h:412-415 | for any overflow points, delivered then pending bytes are the accepted characters in order |
| Streams.AcceptedInOrder | sbt-sysheaders/include/libio.h:412-415 | a character whose put succeeded has before it as many bytes as there were successful puts before it; a failed put leaves no byte |
| Streams.AllAccepted | sbt-sysheaders/include/libio.h:412-415 | if no overflow fails, those are all the characters put, each as it is if it fits in a byte and else reduced modulo 256 |
| Argz.ArgzNext | sbt-sysheaders/include/argz.h:157-177 | computes the following entry |
| Argz.FollowingIsNextStart | sbt-sysheaders/include/argz.h:138-139 | from any position the result is the next entry start, skipping none, or null if there is none |
| Argz.WhileStyle | sbt-sysheaders/include/argz.h:142-144 | visits the entries from the first |
| Argz.ForStyle | sbt-sysheaders/include/argz.h:148-150 | visits the entries from the vector's own pointer |
| Argz.StylesAgree | sbt-sysheaders/include/argz.h:140-150 | both visit the same entries exactly when the vector is not empty or its pointer is null |
| Argz.VisitsPartition | sbt-sysheaders/include/argz.h:138-150 | every entry start is visited once, in order; entries with their NULs are the buffer; one visit for each NUL |
| Argz.RoundTrip | sbt-sysheaders/include/argz.h:35-58 | strings without NULs put into a vector come back in order when iterated: entry i is string i with a NUL behind it |

## Left out
- The rest of the repository, the newlib library sources included: only the five headers are modelled.
- Headers that only declare functions or list constants: they state no behaviour to prove.
- The wide-character macros of `libio.h`: they repeat the byte macros over another element type. Its locking macros are empty or call functions the headers do not define, and its backup area is only a set of fields.
- Lengths and addresses are unbounded integers: overflow of `int`, of pointers and of the casts to `unsigned` in `obstack_room` and `obstack_object_size` is not modelled.
- Allocation failure of obstack chunks; `chunk_size`, the allocator callbacks and the fields only used by functions the header does not define.
- Freeing a null pointer or an address that is no live object: the header does not say what the function `obstack_free` then does.
- ObstackStruct.Obstack.NewChunk: demands only room for the request, where the header speaks of a larger chunk, because a chunk of any sufficient size keeps the properties.
- Changing the alignment mask of an obstack in use.
- Source bytes of a grow that partly overlap the place they are copied to, which `memcpy` does not allow.
- Leaving a block by break, return or goto, which POSIX leaves undefined.
- Strikes while a handler, a destructor or the cleanup routine runs, and within one call of `pthread_setcanceltype`.
- Handlers that exit or push further handlers, and the unwinder itself.
- `regcomp` and the translation of its error codes: `regcomp` is not defined in the headers.
- Read errors, and streams that are both read and written.
- `obstack_memory_used`, and the argz functions that `argz.h` does not define; `argz_create` appears as the encoding in `Argz.Create` only.
