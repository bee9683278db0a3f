# Lua 5.1.2 with local operators, and ULib's access lists: a Dafny model

The repository is the C implementation of Lua 5.1.2 with a few operators of its own (a unary `!`, `|`, `&`, an exclusive or, `<<` and `>>`), and the ULib scripts that run on it. This project models its hardest parts and proves what they promise. Code that changes things in place is modelled as classes and methods with loops, and each such method is tied to a function on values about which the main results are proved.

## What is modelled

- **Expressions, from tokens to the result of the compiled function.** `Precedence` is the operator-precedence parser as a function, for any table of priorities, `PriorityTable` the table as shipped and what it means, `ExprParser` the parser as it stands, which consumes tokens and drives the code generator. `FuncState` is that generator: registers, constants, and jump lists threaded through the instructions they patch. `CodeGen` is the same generator on values, `CodeGenInv` what each of its steps keeps, `LuaVM` the opcodes that expressions need. `CodeMeaning` says what the code of an expression does, `CodeGenSound` proves it, `CodeGenFits` bounds the registers it takes, `CodeRight` says when that is what the expression means, `ReturnStat` is the statement `return expression`, and `ReturnCompiler` puts it all together, from tokens to the run. What operations give, metamethods included, is a parameter (`Ops`).
- **The incremental collector.** `GCHeap` has the objects and their references, `GCInv` the tri-colour invariant, the other `GC` files what marking, sweeping, writing, allocating and closing upvalues keep. `Collector` is the collector with the program's operations: barriers, interned strings that are revived, open upvalues that are shared, revived and closed. `GCRun` is about whole runs.
- **Tables.** `TableChains` is the hash part, with Brent's variation, `TableSizes` the choice of the array size from counts, `TableState` what a table means, `LuaTable` the table itself, with rehash, traversal and length. The hash is any function.
- **Patterns.** `PatternItems` reads a pattern, `PatternMeaning` says what it matches and in which order matches are preferred, `PatternSyntax` how patterns are written, `Matcher` is the backtracking matcher, `PatternCaptures` says which text a capture is. `StringSearch` has `find`, `match`, `gmatch` and `gsub`, `StringResults` what they answer.
- **Precompiled chunks.** `ChunkFormat` has the bytes and reading them back, `ChunkLayout` their layout, `Dump` the writer, `Undump` the reader over a stream that comes in pieces.
- **Smaller algorithms.** `TableSort` is `table.sort`, `Quoting` is `%q` and the lexer's strings, `StringSpelling` how these are spelled, `AccessLists` is ULib's `ucl.query` with inherited groups.

## Findings

Places where the code does not do what it promises, or not in the way one would expect; each is proved.

- **`!` of a numeral gives 0** instead of `false`: constant folding leaves the operator to its default case (lua_source/lcode.c:659-661). `WrongBranches.BangNumeral` has `return !5`; `CodeRight.UnarySite` shows that `return !y`, for a `y` that is itself compiled right, goes wrong exactly when `y` is compiled to a constant with no code to it, with room among the first constants unless it is a numeral.
- **`-` and `!` of `nil`, `true` or `false` give an instruction whose operand is no register** (lua_source/lcode.c:714-725 with lua_source/lvm.c:539-583). `WrongBranches.MinusNil` has `return -nil`; the condition is that of `CodeRight.UnarySite`.
- **A jump that carries a value may land on a constant that then leaves the expression too**, and the value carried is delivered instead of the constant: `((1 or false) and true) or false` returns 1 (lua_source/lcode.c:539-592 with lua_source/lcode.c:390-411). `WrongBranches.ConstantConditions` has that input. `CodeRight.LogicSite` shows that `return y and z` and `return y or z`, for a right `y` and a right `z`, go wrong exactly on the runs in which such a jump out of `y` lands on the constant `y` ends with and carries another value. `CodeRight.FineReturn` shows that an expression whose tree has neither form in it, a condition on the tree alone that follows which values its jumps may carry, is compiled to what it means, for all operations, upvalues and arguments; `ReturnCompiler.CompileReturn` that any expression at all is compiled to what `CodeMeaning.Follow` says, and so agrees with its meaning if and only if that does.
- **The priority table is not in the order of the operators** (lua_source/lparser.c:823-832 with lua_source/lcode.h:26-36): three operators, `^`, exclusive or and `>>`, have another row than the one its comments mean for them (`PriorityTable.ThreeMisplaced`). So `^` associates to the left and `>>` to the right, `^` binds weaker than `*` and than a minus before it, and exclusive or binds tighter than `|`. `PriorityTable.ReadAsMeant` shows that a tree of the table as meant is read back from its text if and only if it respects the table as shipped, and `PriorityTable.SameWithout` that every tree without the three operators does. The parser's results hold for every table.
- **A pattern without special characters is looked for as it stands, also if it has `)` or a zero**, which the matcher would refuse or stop at (lua_source/lstrlib.c:501-509). `StringSearch.PlainSearch` shows that the plain search agrees with the matcher in every text exactly when the pattern has neither.
- **A nested function without a source gets one by a round trip through a chunk** (lua_source/ldump.c:131 with lua_source/lundump.c:164). `ChunkFormat.SameBack` shows that a function comes back the same exactly if each function in it has a source.
- **An array part that has grown stays so when the hash part then cannot be made** (lua_source/ltable.c:297-312). No key is lost by it: `LuaTables.GrowthKeeps`.

## Model

| member | source | states |
|---|---|---|
| Precedence.SubExprSound | lua_source/lparser.c:841-866 | a tree that `subexpr` returns reads as exactly the tokens consumed, respects the priorities of any table, nests within the limit of calls, and stops at the first operator that does not bind tighter than `limit` |
| Precedence.ParseIsInverse | lua_source/lparser.c:841-866 | for the tokens of a tree, `subexpr` returns that tree if and only if it respects the priorities, starts above `limit`, yields to what follows and nests less deep than there is room for |
| Precedence.NoAmbiguity | lua_source/lparser.c:820-866 | two trees that respect the priorities and read the same are the same |
| PriorityTable.ThreeMisplaced | lua_source/lparser.c:823-832 | the table as shipped and the one its comments describe differ for `^`, exclusive or and `>>`, and for no other operator |
| PriorityTable.ReadAsMeant | lua_source/lparser.c:820-866 | the text of a tree that respects the table as meant is read as that tree if and only if the tree respects the table as shipped |
| PriorityTable.SameWithout | lua_source/lparser.c:823-832 | without the three operators, the two tables give every text the same tree |
| PriorityTable.PowerAssociatesLeft | lua_source/lparser.c:823-832 | with the table as shipped, `^` groups to the left and `>>` to the right, each against the table as meant |
| PriorityTable.PowerBindsWeaker | lua_source/lparser.c:823-832 | with the table as shipped, `*` takes the right operand of `^`, and exclusive or that of a bitwise or |
| PriorityTable.MinusBindsTighter | lua_source/lparser.c:823-835 | with the table as shipped, `-x^y` is `(-x)^y` |
| PriorityTable.ReadByRank | lua_source/lparser.c:820-866 | with the table as shipped, a text is read as a tree if and only if the tree respects the order `or`, `and`, comparisons, `..`, sums with `^`, products with exclusive or, operators on one operand, `>>`, where `..` and `>>` group to the right |
| PriorityTable.PairGrouped | lua_source/lparser.c:820-866 | for every two operators, which way the parser groups `x op1 y op2 z` |
| PriorityTable.UnaryGrouped | lua_source/lparser.c:835-850 | `-x op y`, and likewise `not`, `#` and `!`, is `(-x) op y` for every operator but `>>` |
| LuaValue.OperatorsMean | lua_source/lvm.c:418-660 | which primitive each operator with two operands is, and the order of its operands |
| LuaValue.TruthsMean | lua_source/lvm.c:418-660 | `and`, `or`, `not` and `!` take `nil` and `false` for false and nothing else; `-` and `#` are their primitives |
| ExprParsers.Parser.Subexpr | lua_source/lparser.c:841-866 | the parser succeeds exactly when the grammar gives a tree, stops where it ends, keeps the count of nested calls, and leaves the generator where generating the code of that tree does; jump lists made before are as they were |
| FuncStates.FuncState.Concat | lua_source/lcode.c:185-196 | two disjoint lists threaded through the instructions become one, first the first then the second, and no jump outside the first list changes |
| FuncStates.FuncState.PatchListAux | lua_source/lcode.c:150-160 | each jump of a list gets the target its test kind asks for, and no other pending jump changes |
| FuncStates.FuncState.RemoveValues | lua_source/lcode.c:144-147 | every test of a list that would leave a value no longer does, and the list still threads the same jumps |
| FuncStates.FuncState.Nil | lua_source/lcode.c:35-56 | loading nils, merged with the instruction before only where no jump lands between |
| FuncStates.FuncState.ExpToReg | lua_source/lcode.c:390-411 | the value is in the register by every way out of the expression, with the labels for jumps that carry none; both lists are closed |
| FuncStates.FuncState.GoIfTrue | lua_source/lcode.c:539-564 | code that goes on if the expression is true; the false list has every jump out, the true list ends here |
| FuncStates.FuncState.CodeNot | lua_source/lcode.c:594-626 | the negation, with the two lists exchanged and stripped of values |
| FuncStates.FuncState.Infix | lua_source/lcode.c:738-762 | the first operand is made ready for its operator |
| FuncStates.FuncState.Posfix | lua_source/lcode.c:765-816 | both operands are combined, in place, as the generator on values does |
| CodeGenInv.GenInv | lua_source/lcode.c:304-816 | the code of an expression keeps the lists disjoint sets of pending jumps, the registers in stack order, the jumps and labels where they were, and the code before it as it was |
| LuaVM.ExecIsARun | lua_source/lvm.c:418-660 | running a stretch of code that only jumps forward is running the machine for some number of steps |
| CodeGenSound.GenSound | lua_source/lcode.c:304-816 | for every expression, and whatever came before, the code generated ends as `CodeMeaning.Follow` says: the value where the descriptor puts it, each jump in the list of its truth, locals unchanged, an error or a bad operand where that says so |
| ReturnStat.NextRegHolds | lua_source/lcode.c:414-419 | after `luaK_exp2nextreg`, the run gets to the end of the code with the value in the next free register and everything below it as it was |
| ReturnStat.OneEnd | lua_source/lvm.c:418-660 | a run of the machine has one end |
| ReturnCompiler.CompileReturn | lua_source/lparser.c:1249-1279 | `return expression` compiles exactly when it is in the grammar and nests within the limit; when the registers suffice, the function's run has one end, the one `Follow` gives, and it is the expression's value for all operations, upvalues and arguments exactly if the two agree; for a tree without the two wrong forms that needs fewer registers than there are, it always is |
| CodeGenFits.GenFits | lua_source/lcode.c:199-212 | no code of an expression takes more registers than a number computed from its tree |
| CodeGenFits.ReturnFits | lua_source/lcode.c:199-212 | with that number below the limit, compiling raises no error for registers |
| CodeRight.FineRight | lua_source/lcode.c:709-816 | for a tree without the two wrong forms, code and meaning agree, part by part |
| CodeRight.FineReturn | lua_source/lparser.c:1249-1279 | and so the compiled function returns the expression's value or raises its error |
| CodeRight.UnarySite | lua_source/lcode.c:709-725 | `return -y` and `return !y`, for a right `y`, agree with their meaning if and only if `y` is not a constant operand of the wrong kind, or fails by itself |
| CodeRight.LogicSite | lua_source/lcode.c:539-592 | `return y and z` and `return y or z`, for right parts, agree with their meaning if and only if no jump with another value lands on a constant left operand |
| WrongBranches.BangNumeral | lua_source/lcode.c:635-666 | `return !5` returns 0 |
| WrongBranches.MinusNil | lua_source/lcode.c:714-725 | `return -nil` runs an instruction with a bad operand |
| WrongBranches.ConstantConditions | lua_source/lcode.c:539-592 | `return ((1 or false) and true) or false` returns 1 |
| Collectors.Collector.Step | lua_source/lgc.c:556-633 | single steps, one at least, each nearer to the end of the cycle, until they have cost the limit or the cycle ends, and no longer; a limit above what as many steps can cost as there may be ends the cycle; a call that begins a cycle and ends it leaves exactly what was reachable, or fixed; in every phase the invariant holds and a program sees no change |
| Collectors.EnoughEnds | lua_source/lgc.c:610-633 | with a limit above the cost of that many steps, a cycle ends |
| Collectors.Collector.FullGC | lua_source/lgc.c:636-659 | from any phase, it ends in the pause with exactly the objects that were reachable, or fixed, all in the current white |
| Collectors.Collector.PropagateMark | lua_source/lgc.c:277-320 | one gray object is traversed: the tri-colour invariant holds, nothing unreachable is marked, there is one less to do |
| Collectors.Collector.RemarkUpvals | lua_source/lgc.c:515-522 | the values of marked open upvalues are marked, even if their threads are not |
| Collectors.Collector.Atomic | lua_source/lgc.c:525-553 | after the atomic step, every live object is in any closed set of objects that holds the roots and what was marked |
| Collectors.Collector.SweepSome | lua_source/lgc.c:407-428 | 40 objects of the root list, or all that are left, are freed if they are dead and whitened otherwise, one after the other; no live object is freed and none is brought back |
| Collectors.Collector.Barrier | lua_source/lgc.c:662-672 | restores the invariant broken by a write of a white value into a black object, in every phase |
| Collectors.Collector.BarrierT | lua_source/lgc.c:675-683 | does so for a table by making it gray again |
| Collectors.Collector.NewString | lua_source/lstring.c:75-93 | one string object per text, live, also when it was dead and is brought back |
| Collectors.Collector.ResizeStrings | lua_source/lstring.c:22-47 | every string is found in its new bucket; nothing happens while strings are swept |
| Collectors.Collector.FindUpval | lua_source/lfunc.c:53-79 | the one open upvalue of the stack slot, live, found, brought back or made in its place in the list; no other object changes |
| Collectors.Collector.Close | lua_source/lfunc.c:96-112 | exactly the open upvalues at the level or above leave the list, and take the values of their slots unless they are dead; those below stay open where they were, and no other object changes |
| Collectors.Collector.SetStack | lua_source/lobject.h:161-174 | a write to a slot of the stack is what the upvalue open on it reads, and no other |
| Collectors.Collector.LinkUpval | lua_source/lgc.c:695-709 | a closed upvalue on the root list keeps the invariant in every phase |
| Collectors.Collector.SetUpval | lua_source/lvm.c:492-497 | the upvalue reads what was written, and nothing but its cell, in the stack or of its own, changes |
| GCUpval.OneUpvalPerSlot | lua_source/lfunc.c:53-79 | open upvalues of one slot are one upvalue |
| GCRuns.Run | lua_source/lgc.c:556-633 | over any sequence of steps and of the program's writes, allocations, captures and closings, the invariant holds all the time, everything reachable is live, and so is everything a program finds in a live object; no reachable object is freed; each action does to the objects what it should and nothing else, and what the collector does cannot be seen |
| TableSizes.CountInt | lua_source/ltable.c:211-219 | a key is counted in the one slice it falls into, if it is a positive integer up to the limit |
| TableSizes.NumUseArray | lua_source/ltable.c:222-244 | the counts per slice of the array part, and their sum |
| TableSizes.NumUseHash | lua_source/ltable.c:247-260 | the counts per slice of the hash part, and all its entries |
| TableSizes.CountedPrefixes | lua_source/ltable.c:333-349 | summed up, the counts are exactly those of the keys 1 to 2^i |
| TableSizes.ComputeSizes | lua_source/ltable.c:189-208 | the largest power of two of whose slots more than half are in use, or 0, with the exact count of its keys |
| LuaTables.Table.Get | lua_source/ltable.c:435-489 | the value stored for the key, wherever it is |
| LuaTables.Table.Collide | lua_source/ltable.c:407-426 | a new key gets a place by moving the colliding node or by taking the free one, and every key keeps its chain and its value |
| LuaTables.Table.NewKey | lua_source/ltable.c:399-432 | the key gets a slot, and every key keeps its value; a rehash is needed at most once, and the slot asked for after it is found without another |
| LuaTables.Table.Resize | lua_source/ltable.c:263-324 | with room for what does not go into the array, every key keeps its value and every re-insertion finds a free place, in the smallest hash part that is large enough; on overflow, only the array part has grown |
| LuaTables.Table.Rehash | lua_source/ltable.c:333-349 | the array part gets the optimal size for the keys and the new key, and there is room for it |
| LuaTables.GrowthKeeps | lua_source/ltable.c:297-312 | an array part that has grown before an overflow hides no key of the old hash part |
| LuaTables.Table.Put | lua_source/ltable.c:494-529 | after a store, the key has the value and every other key what it had; errors exactly for nil, for not-a-number, and for a key that has no slot, whose place is taken, with no free node left and a hash part of the size then needed being too large |
| LuaTables.FullMeansMany | lua_source/ltable.c:272-287 | that is so only when at least 2^26 keys have a value |
| LuaTables.Table.Serve | lua_source/ltable.c:435-529 | any sequence of stores, reads and resizes answers as a finite map does; a store is refused only for nil, for not-a-number, and, for a new key, when at least 2^26 keys have a value |
| LuaTables.Table.GetN | lua_source/ltable.c:532-576 | the length is a border: 0 or a key with a value, with the next key without one |
| LuaTables.Table.Next | lua_source/ltable.c:137-179 | the nearest entry after the key's place, or the end; an error exactly for a key that has no place |
| LuaTables.Table.Traverse | lua_source/ltable.c:162-179 | a traversal visits every entry exactly once and ends, also when its body writes to existing keys or clears them |
| PatternMeaning.BalanceIs | lua_source/lstrlib.c:280-297 | `%b` ends where openings less closings first come to nothing |
| PatternMeaning.ResultsAreAll | lua_source/lstrlib.c:300-439 | the list of matches in order of preference has every derivation of the pattern and nothing else |
| PatternMeaning.MostFirst | lua_source/lstrlib.c:300-312 | `*` and `+` prefer the most repetitions that let the rest match |
| PatternMeaning.FewestFirst | lua_source/lstrlib.c:315-325 | `-` prefers the fewest |
| PatternSyntax.SpelledBack | lua_source/lstrlib.c:201-439 | every list of items, written out as a pattern, is read back as it was |
| PatternSyntax.ClassesMean | lua_source/lstrlib.c:225-241 | a class letter stands for its characters, and in upper case for all others |
| PatternSyntax.BracketMeans | lua_source/lstrlib.c:244-264 | a bracket has the characters that its classes, ranges or single characters cover, or all others |
| PatternSyntax.FrontierMeans | lua_source/lstrlib.c:383-395 | `%f` matches, without taking anything, where a character in the set comes after one that is not, the ends of the text counting as zeros |
| PatternSyntax.BackMeans | lua_source/lstrlib.c:353-361 | `%1` to `%9` match the text of a closed capture again |
| PatternCaptures.GroupMatches | lua_source/lstrlib.c:328-350 | a group matches as its contents do, if and only if there is room for its capture, and leaves the captures before it as they were and its own as the text from its start to its end |
| PatternCaptures.CaptureIs | lua_source/lstrlib.c:328-350 | wherever a group stands in a pattern, what is pushed for it is the text that its contents matched |
| PatternCaptures.PlaceIs | lua_source/lstrlib.c:328-339 | what is pushed for `()` is the place of the match at that point, counted from 1 |
| PatternCaptures.MatchWhole | lua_source/lstrlib.c:494-534 | `match` with a complete pattern in parentheses answers first all of the text that it finds |
| Matchers.MatchState.ClassEnd | lua_source/lstrlib.c:201-222 | the end of a class, or the error of a malformed one |
| Matchers.MatchState.MatchBracketClass | lua_source/lstrlib.c:244-264 | whether the character is in the set that the bracket writes, element by element |
| Matchers.MatchState.MatchCapture | lua_source/lstrlib.c:353-361 | the end of the captured text, if it stands again; an error for a capture that is not closed |
| Matchers.MatchState.MaxExpand | lua_source/lstrlib.c:300-312 | the first match of the rest after the most, then fewer, repetitions |
| Matchers.MatchState.MinExpand | lua_source/lstrlib.c:315-325 | the first match of the rest after the fewest, then more, repetitions |
| Matchers.MatchState.Match | lua_source/lstrlib.c:364-439 | the first match in order of preference, with its captures, or the first error; without a match, the level and every capture are as they were |
| StringSearch.DerivesFits | lua_source/lstrlib.c:328-350 | a match ends in the text, and so do its captures |
| StringSearch.SearchMeans | lua_source/lstrlib.c:517-532 | a search finds a match with nothing matching further left, or there is none |
| StringSearch.PushCaptures | lua_source/lstrlib.c:465-491 | the captures in order, or the whole match, or the error of the first that is not finished |
| StringSearch.LMemFind | lua_source/lstrlib.c:443-462 | the first place where the text stands, or that there is none |
| StringSearch.FindAux | lua_source/lstrlib.c:494-534 | `find` and `match` answer with the leftmost match from the start position on, or the only place an anchor allows, and with their captures |
| StringResults.StartCounts | lua_source/lstrlib.c:36-40 | a positive start counts from the front, a negative one from the end, and neither goes beyond it |
| StringResults.FoundPlaces | lua_source/lstrlib.c:518-528 | `find` answers the places of the first and the last character of the match, counted from 1, before the captures |
| StringSearch.PlainSearch | lua_source/lstrlib.c:501-509 | the shortcut for patterns without special characters agrees with the matcher in every text if and only if the pattern has no `)` and no zero |
| StringSearch.Gmatch.Next | lua_source/lstrlib.c:547-570 | one call takes the first of the matches still to come, and moves past it |
| StringSearch.MatchesChain | lua_source/lstrlib.c:547-570 | the matches of a run are in order and none overlaps another |
| StringSearch.MatchesBound | lua_source/lstrlib.c:651-664 | there are at most as many as starts in the text, so the default limit of `gsub` is none |
| StringResults.NonePassedOver | lua_source/lstrlib.c:547-570 | each match of a run is the first there is after the one before, and there is none after the last |
| StringResults.TemplateFilled | lua_source/lstrlib.c:589-608 | a template with captures and escapes, written out, is filled in piece by piece |
| StringResults.CallReplaces | lua_source/lstrlib.c:611-643 | a function gets all captures and gives the text, or false to keep the match |
| StringSearch.Gsub | lua_source/lstrlib.c:647-682 | the text with the first matches of that run replaced, the text between them kept, and their number; the first error otherwise |
| StringSearch.SplicedSame | lua_source/lstrlib.c:589-608 | replacing every match with `%0` gives the text back |
| ChunkFormat.ChunkBack | lua_source/lundump.c:160-203 | reading the bytes of a function gives it back: sources from the function around it, without debug information when stripped; an error exactly if the code check refuses a part |
| ChunkFormat.SameBack | lua_source/lundump.c:160-177 | unstripped, that is the same function if and only if each function in it has a source |
| ChunkLayout.HeaderIs | lua_source/lundump.c:210-223 | signature, version, format, byte order and sizes |
| ChunkLayout.ByteOfNumber | lua_source/ldump.c:45-48 | the bytes of a number, the lowest first |
| ChunkLayout.ExampleBytes | lua_source/ldump.c:61-141 | a function with a part of every kind, byte by byte, stripped or not |
| Dump.SaveChunk | lua_source/ldump.c:153-164 | the blocks given to the writer are the bytes of the function; the status is 0 if and only if it takes every one, and otherwise what it said to the first that it did not take; it has the blocks before that |
| Undump.Zio.Read | lua_source/lzio.c:58-71 | the next bytes, however the reader cuts them, or how many are missing |
| Undump.LoadState.LoadFunction | lua_source/lundump.c:160-177 | the function that the bytes to come stand for, or the first error in them |
| Undump.LoadChunk | lua_source/lundump.c:191-204 | the result depends on the bytes alone and not on the pieces they come in |
| TableSort.Partition | lua_source/ltablib.c:208-234 | the pivot gets between what is not greater and what is not less; the scans stay in the range, so no invalid order is reported |
| TableSort.AuxSort | lua_source/ltablib.c:184-245 | for every strict weak order the range becomes a sorted permutation, nothing else changes, and calls nest at most as deep as the logarithm of its length |
| TableSort.Sort | lua_source/ltablib.c:247-255 | fewer than 2^40 elements are sorted within 40 nested calls |
| Quoting.LexState.ReadString | lua_source/llex.c:280-333 | the string that the text up to the delimiter stands for, and the line it ends on, or the error |
| StringSpelling.LiteralRead | lua_source/llex.c:280-333 | a literal made of characters, escaped letters, decimal codes and escaped line ends is read as the characters these stand for, and each line end counts; without its delimiter it is unfinished, and a code above 255 is too large |
| Quoting.ReadQuoted | lua_source/llex.c:280-333 | reading a quoted string gives every string back and counts its newlines, if and only if that does not make too many lines |
| Quoting.FormatAndRead | lua_source/lstrlib.c:695-722 | `%q` and then the lexer give the string back |
| AccessLists.Search.GetInherits | lua/ULib/lua/ULib/shared/sh_ucl.lua:143-159 | with one list shared by all calls, a call finds only ancestors, none twice, and leaves no parent of what it found out |
| AccessLists.Inherited | lua/ULib/lua/ULib/shared/sh_ucl.lua:143-159 | exactly the ancestors of a group, each once, on any graph |
| AccessLists.GetGroups | lua/ULib/lua/ULib/shared/sh_ucl.lua:138-171 | exactly the user's groups, their ancestors, and everyone's group |
| AccessLists.Query | lua/ULib/lua/ULib/shared/sh_ucl.lua:39-75 | access exactly if the caller is the host, or no deny of the user or of a group of the user lists it and some allow of the user, a group, an inherited group or everyone's group does |

## Left out

- Compiler: names and scopes, globals, indexing, calls, varargs, table constructors, closures, and all statements but `return` of one expression; line information.
- Compiler: the widths of instruction fields, so the limits on jump distance and on the number of constants; that 0 and -0 share a constant.
- Machine: what a metamethod does besides its result, which is a parameter; `OP_CONCAT` leaves its operand registers alone, and a bad operand ends the run where the source reads beyond its registers.
- Collector: finalizers, weak tables, the arithmetic of when to collect and of the limit of a step, the sizes of buffers and of stacks, `luaC_freeall`, and `lua_setupvalue`, whose barrier is on the closure. What an object takes in bytes is a parameter. Addresses are not used again. Of fixed objects, only strings are modelled.
- Tables: nodes are numbered where the source has pointers, keys that died keep their place as keys with no value, and allocation never fails. Array parts are as large as the source allows.
- Patterns: the tests of characters that the locale may change are parameters; patterns end at their first zero, as in the source. A function or table given to `gsub` is a function without effects.
- Chunks: bytes are those of one machine, with 32-bit `int` and `size_t`, least significant byte first; numbers are their bytes; the check of loaded code is a parameter. The stack and the memory always suffice.
- Sorting: an order function that is not a strict weak order, or that raises an error or changes the table.
- Strings: long strings, comments and the other tokens of the lexer.
- Access lists: bans, users that are not authenticated, and everything of ULib that talks to the game.
