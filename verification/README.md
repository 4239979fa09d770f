# Endstone: a verified model of its hard parts

Endstone is a plugin API and server runtime for Minecraft: Bedrock Edition. This project models the parts of
it whose behaviour is hardest to see from the code, and proves what callers rely on. `dafny verify
dfyconfig.toml` checks all of it.

**Binary NBT** (`Codec`, `NbtTag`, `NbtCodec`, `NbtRoundTrip`, `NbtFailures`, `NbtSizes`,
`NbtUnknown`, `NbtEquals`, `NbtCanonical`, `NbtIo`, `TagHeap`). A tag tree is written to and loaded from bytes by mutually recursive code that drops the results
of nested loads. The model keeps every branch: an empty list is rebuilt exactly though its own load reports an
error, a compound ends at an End byte or at the end of the input, a negative count throws, and a list's
declared count alone decides how many elements it gets. The primitive reader and writer are a parameter with
stated laws, and the two byte orders that the repository writes are proved to satisfy them. `NbtCodec` is the
specification on values; `NbtIo` has the classes and loops as the program has them, proved equal to it;
`TagHeap` has tags as objects that own other objects, for what copying shares.

**SNBT text** (`Decimal`, `Snbt`, `SnbtSpelling`, `SnbtReading`, `SnbtFormat`, `SnbtMeaning`). The printer's quoting, escaping
and nesting, a reader that inverts it, and the exact condition under which two tags print alike.

**Reference counting** (`SharedPtr`, `SharedPtrSupport`, `SharedPtrCycles`, `SharedPtrRuns`,
`SharedPtrEffects`, `SharedPtrStore`). Strong and weak pointers over an explicit store in
which deleting twice, or using a deleted counter block, is a reachable fault. Destroying an object destroys
the pointer variables it contains, at any depth and for any ownership graph, while the pointer that triggered
it is still in the middle of its reset.

**Event handlers** (`HandlerList`). The lazily rebuilt flat list against the stable sort of the live
registrations.

**Itanium scopes** (`ItaniumScope`, `ItaniumMangling`). The index-driven reader of mangled names, on every
string, and as the inverse of a mangler for the nested-name fragment of section 5.1 of the Itanium C++ ABI.

**Rotations and images** (`Rotation`, `Image`). Rodrigues' formula over the reals, for axes of any length, and
pixel addressing.

## What turned out

- The binary round trip holds on a tree whose list types exist if and only if the tree is one that a load can
  leave behind (`RoundTripsExactly`). A list whose own type number does not exist never round-trips, whatever
  it holds (`UnknownListTypeLeavesCount`): the reader stops before its count. In both byte orders it is then
  four zero bytes behind, and stays so as long as it reads right, so that no tree with such a list at any depth
  of nested lists round-trips (`RoundTripsInByteOrder`).
- `equals` is the sub-tree relation: reflexive, transitive and antisymmetric, but symmetric only between trees
  of equal size (`SymmetricExactlyAtEqualSize`, `EqualsNotSymmetric`).
- `SharedPtr::reset` clears its own `pc_` only after deleting the object. Resetting a variable that an object
  owns therefore deletes something twice exactly when that variable is all that holds its owner up: when the
  owner is in no set of live objects each of which some other strong variable holds, one that nobody owns or
  that an object of the set owns (`OwnedResetExactly`, `ResetSafeExactly`). For a variable stored in its own
  target this means that it is the last strong holder (`ResetOfOwnTarget`); a four-step program reaches that
  state (`UnsafeResetIsReached`). Every run without such a reset is safe, and resets of variables that nobody
  owns always are; they delete exactly the objects that nothing else holds up (`SurvivesExactly`).
- The text of a tag shows its nesting, kinds, keys and spellings, with one exception: a list holding a single
  End, which list construction refuses but assignment through a reference can produce, prints as the empty list
  does. Up to that, at any depth, two tags print alike exactly when they are alike (`PrintAlike`), and a tag's
  own skeleton comes back exactly when it contains no such list (`ReadsBackExactly`).
- `Image::fromBuffer` accepts one or three bytes a pixel and copies them to the front of a buffer that is read
  at four bytes a pixel. Only the first pixel is then read as it was packed, for every buffer; for RGBA all
  are (`PackedReadExactly`).
- The escape formatter doubles braces with the comment "fmt escape", but the text is passed on as an argument,
  not as a format string, so the doubled braces stay in the output. The model follows the code.
- The documentation of the unit-axis rotation says that a non-unit axis changes lengths. Exactly which lengths
  survive is `LengthKeptExactly`.

## Model

| member | source | states |
|---|---|---|
| ByteOrders.GatherSpread | src/bedrock/util/string_byte_output.cpp:44-68 | the bytes of a number, in either order, gather back to it modulo the width |
| ByteOrders.NumRoundTrip | src/bedrock/util/data_io.cpp:39-57 | every number in the range of its type is read back, and exactly its bytes are consumed |
| ByteOrders.StringRoundTrip | src/bedrock/util/data_io.cpp:17-21 | a string is read back as its kept prefix, and nothing more is consumed |
| ByteOrders.SpreadAt | src/bedrock/util/string_byte_output.cpp:44-68 | byte by byte: the most significant one first in the one order and last in the other |
| ByteOrders.IntBytes | src/bedrock/util/string_byte_output.cpp:50-56 | the four bytes of an int in each order |
| ByteOrders.ShortBytes | src/bedrock/util/string_byte_output.cpp:44-48 | the two bytes of a short in each order |
| ByteOrders.LongStringBytes | src/bedrock/util/data_io.cpp:17-21 | after two bytes of length, the first bytes of the string, as many as its size modulo 32768 |
| ByteOrders.CodecOfLawful | src/bedrock/util/string_byte_output.cpp:44-68 | both byte orders satisfy the laws that the rest of the model assumes of a codec |
| NbtTag.KeyLessTrichotomy | src/bedrock/nbt/compound_tag.h:37 | the key order is total: two keys are equal or exactly one is less |
| NbtTag.KeyLessDecides | src/bedrock/nbt/compound_tag.h:37 | the first byte that differs decides, compared unsigned, and a key comes before what it begins |
| NbtTag.PutSorted | src/bedrock/nbt/compound_tag.cpp:90-101 | putting an entry keeps the map in key order |
| NbtTag.GetPut | src/bedrock/nbt/compound_tag.cpp:90-101 | after a put, the name maps to the new value and every other name is untouched |
| NbtTag.RemoveSorted | src/bedrock/nbt/compound_tag.cpp:353-361 | removing keeps the order, drops the name and leaves all others |
| NbtTag.SortedExtensional | src/bedrock/nbt/compound_tag.h:37 | an ordered map is determined by what its names map to |
| NbtTag.TypeNumbers | src/bedrock/nbt/tag.h:22-36 | the number of every tag type |
| NbtRoundTrip.LoadedIsDecoded | src/bedrock/nbt/tag.cpp:48-79 | every load of any bytes, complete or cut short, leaves a well-formed tree |
| NbtRoundTrip.LoadedElemsAreDecoded | src/bedrock/nbt/list_tag.cpp:72-80 | the elements of a loaded list all have the list's type, even where their own loads failed |
| NbtRoundTrip.LoadedEntriesAreDecoded | src/bedrock/nbt/compound_tag.cpp:33-49 | a loaded compound is in key order and has no End value, whatever ended it |
| NbtRoundTrip.RoundTrip | src/bedrock/nbt/compound_tag.cpp:25-49 | loading what a tree's write appended, followed by anything, gives the tree and leaves exactly what followed; only an empty list reports an error |
| NbtRoundTrip.EmptyListRoundTrip | src/bedrock/nbt/list_tag.cpp:48-70 | an empty list is rebuilt and consumed exactly while its load reports failure |
| NbtRoundTrip.NamedRoundTrip | src/bedrock/nbt/nbt_io.cpp:19-77 | a named tag is read back with its name, and a failure inside it is not reported |
| NbtRoundTrip.EntriesRoundTrip | src/bedrock/nbt/compound_tag.cpp:33-49 | loading any written entries, in any order and with repeated names, is putting them in turn |
| NbtRoundTrip.RoundTripsExactly | src/bedrock/nbt/compound_tag.cpp:25-49 | among trees whose list types exist, exactly the well-formed ones round-trip |
| NbtRoundTrip.UnknownListTypeLeavesCount | src/bedrock/nbt/list_tag.cpp:54-57 | a list with a type number that does not exist, whatever it holds, leaves its count and elements unread, so it never round-trips |
| NbtUnknown.TagStaysBehind | src/bedrock/nbt/list_tag.cpp:54-70 | a reader that is four zero bytes behind either reads a tag wrong or is four zero bytes behind after it |
| NbtUnknown.ElemsFallBehind | src/bedrock/nbt/list_tag.cpp:72-80 | elements of which one contains an unknown list are read wrong or leave the reader four bytes behind |
| NbtUnknown.RoundTripsExactlyBelowLists | src/bedrock/nbt/list_tag.cpp:39-82 | with no compound above an unknown list, exactly the well-formed trees without unknown types round-trip |
| NbtUnknown.RoundTripsInByteOrder | src/bedrock/util/string_byte_output.cpp:44-68 | the same for both byte orders that are written |
| NbtRoundTrip.LoadWriteLoad | src/bedrock/nbt/list_tag.cpp:39-82 | what a load of any bytes leaves behind is, if its list types exist, the same tree when written and loaded again |
| NbtRoundTrip.CutAtEntryBoundary | src/bedrock/nbt/compound_tag.cpp:33-49 | a compound's bytes cut between entries are a prefix that loads without error to the entries before the cut |
| NbtRoundTrip.DeclaredCountDecides | src/bedrock/nbt/list_tag.cpp:59-81 | a negative count throws, zero fails, and any other count gives a list of that length however little input is left |
| NbtFailures.NamedIsWhateverLoads | src/bedrock/nbt/nbt_io.cpp:19-44 | a named tag is whatever the load of its payload leaves, failed or not; only an exception gets through |
| NbtFailures.NamedFails | src/bedrock/nbt/nbt_io.cpp:19-44 | an unknown type is an error once its name is read, an unreadable name is one, and an End has no name |
| NbtFailures.CutPayload | src/bedrock/nbt/int_tag.h:28-36 | a payload that cannot be begun leaves zero or nothing in the tag, and the load reports failure |
| NbtFailures.CutByteArray | src/bedrock/nbt/byte_array_tag.h:40-56 | a byte array is read whole or, when its count exceeds what is left or is negative, not at all |
| NbtFailures.CutIntArray | src/bedrock/nbt/int_array_tag.h:38-56 | an int array keeps what was read before the input ended, and a negative count throws |
| NbtFailures.CutList | src/bedrock/nbt/list_tag.cpp:48-82 | when the input ends inside a list, the elements before the end are there, the others are blank, and the load succeeds |
| NbtFailures.EndTypedList | src/bedrock/nbt/list_tag.cpp:66-70 | a list of type End is empty and reports failure, whatever its count |
| NbtFailures.CutInLastValue | src/bedrock/nbt/compound_tag.cpp:33-49 | a compound cut inside its last value loads successfully, to the entries before and that name with what became of the value |
| NbtFailures.CutBeforeLastValue | src/bedrock/nbt/compound_tag.cpp:33-49 | cut before that value, the name is there with a blank value |
| NbtFailures.UnreadableEntry | src/bedrock/nbt/compound_tag.cpp:36-41 | an entry that cannot be read ends the load with a failure, and the entries before it stay |
| NbtSizes.SizeOf | src/bedrock/nbt/compound_tag.cpp:25-31 | the number of bytes that any tag is written in |
| NbtSizes.WrittenSize | src/bedrock/util/data_io.cpp:17-57 | the same for both byte orders |
| NbtCodec.LoadTag | src/bedrock/nbt/tag.cpp:48-79 | terminates on every input and never lengthens it |
| NbtCodec.LoadElems | src/bedrock/nbt/list_tag.cpp:72-80 | the loop of a list load is bounded by its count and, unless something throws, yields that many elements |
| NbtCodec.ReadNamed | src/bedrock/nbt/nbt_io.cpp:19-44 | reading a named tag from a non-empty input consumes something, so that the loop around it ends |
| NbtEquals.EqualsIsSubTree | src/bedrock/nbt/compound_tag.cpp:61-72 | two trees are equal if and only if every path into the first leads, in the second, to a node of the same content |
| NbtEquals.EqualsReflexive | src/bedrock/nbt/tag.cpp:30-33 | every ordered tree equals itself |
| NbtEquals.EqualsTransitive | src/bedrock/nbt/list_tag.cpp:94-101 | the comparison is transitive |
| NbtEquals.EqualsAntisymmetric | src/bedrock/nbt/compound_tag.cpp:61-72 | equality both ways is structural identity |
| NbtEquals.SymmetricExactlyAtEqualSize | src/bedrock/nbt/compound_tag.cpp:61-72 | of trees that compare equal one way, the other way holds exactly when they have equally many nodes |
| NbtEquals.EqualsNotSymmetric | src/bedrock/nbt/compound_tag.cpp:61-72 | the empty compound equals any non-empty one, which does not equal it |
| NbtCanonical.LoadKeepsLast | src/bedrock/nbt/compound_tag.cpp:33-49 | a loaded compound maps every name to the last value given for it, and is in key order |
| NbtCanonical.PutAllCanonical | src/bedrock/nbt/compound_tag.cpp:95-101 | puts in any order with the same last values end in the same map |
| NbtCanonical.LastValuesDecide | src/bedrock/nbt/compound_tag.cpp:95-101 | two entry sequences with the same last values load to the same compound and so are written back alike |
| NbtCanonical.OrderDoesNotMatter | src/bedrock/nbt/compound_tag.cpp:33-49 | permutations of entries with distinct names load to one compound |
| NbtCanonical.CompoundLayout | src/bedrock/nbt/nbt_io.cpp:69-77 | right after the entries before it stand an entry's type, name and value, in that order, and a zero byte closes the compound |
| NbtCanonical.ListLayout | src/bedrock/nbt/list_tag.cpp:39-46 | the type and the count come first, and each element stands right after those before it |
| NbtIo.ByteArrayTag.Load | src/bedrock/nbt/byte_array_tag.h:40-56 | the load in place ends with the status, data and input that the specification gives; a load that fails leaves the old data |
| NbtIo.IntArrayTag.Load | src/bedrock/nbt/int_array_tag.h:38-56 | the loop leaves the numbers read before a failure; the old numbers stay only if the count cannot be read |
| NbtIo.ListTag.Load | src/bedrock/nbt/list_tag.cpp:48-82 | the loop over the count ends as the specification does; an early return keeps the old elements, under the new type if one was read |
| NbtIo.ListTag.Add | src/bedrock/nbt/list_tag.cpp:131-135 | adding renames the list's type; a well-formed list stays well formed exactly when it was empty or the types agree |
| NbtIo.ListTag.Erase | src/bedrock/nbt/list_tag.cpp:233-239 | one element goes, an index out of range changes nothing, and the type stays even when the list becomes empty |
| NbtIo.CompoundTag.Load | src/bedrock/nbt/compound_tag.cpp:33-49 | clearing and the loop of puts end as the specification does |
| NbtIo.CompoundTag.PutTag | src/bedrock/nbt/compound_tag.cpp:90-101 | the name maps to the tag, all others are as before, and the order is kept |
| NbtIo.CompoundTag.RemoveTag | src/bedrock/nbt/compound_tag.cpp:353-361 | reports whether the name was there; it no longer is, and all others are as before |
| NbtIo.CompoundTag.DeepCopy | src/bedrock/nbt/compound_tag.cpp:338-344 | the target gets the other's entries; copying a compound onto itself empties it |
| NbtIo.CompoundTag.Write | src/bedrock/nbt/compound_tag.cpp:25-31 | appends exactly the encoding |
| NbtIo.WriteTag | src/bedrock/nbt/int_array_tag.h:30-36 | the writes of all tag kinds append exactly the encoding of the tag |
| NbtIo.LoadNew | src/bedrock/nbt/tag.cpp:48-79 | a fresh tag of the given type, loaded in place, is what the specification loads |
| NbtIo.ReadNamedTag | src/bedrock/nbt/nbt_io.cpp:19-44 | the reader ends as the specification does, on errors and on throws as well |
| NbtIo.ReadNamedCompound | src/bedrock/nbt/nbt_io.cpp:46-67 | a tag of another type is an error after one byte; otherwise the name and the compound are read and a failed load is not reported |
| NbtIo.SaveThenRead | src/bedrock/nbt/nbt_io.cpp:69-77 | a named tag saved and read back is the same, with the rest of the input untouched |
| TagHeap.Copy | src/bedrock/nbt/compound_tag.cpp:74-77 | the copy stands for the same tag and consists of new objects only |
| TagHeap.CopyList | src/bedrock/nbt/list_tag.cpp:207-215 | the copied list stands for the same tag and shares no object, at any depth |
| TagHeap.Clone | src/bedrock/nbt/compound_tag.cpp:346-351 | the cloned compound stands for the same tag and shares no object, at any depth |
| TagHeap.DeepCopy | src/bedrock/nbt/compound_tag.cpp:338-344 | the target stands for a source outside its tree and, but for itself, consists of new objects |
| TagHeap.Emplace | src/bedrock/nbt/compound_tag_variant.h:31-60 | the new place stands for the tag moved in and takes over the objects that the tag owned |
| TagHeap.OtherTreesMayChange | src/bedrock/nbt/compound_tag.cpp:338-351 | whatever is done to objects outside a tree, such as the tree it was copied from, the tree stands for the same tag |
| TagHeap.CloneThenEdit | src/bedrock/nbt/compound_tag.cpp:346-351 | a compound cloned and then changed in any way leaves the clone, and its encoding, what the compound was |
| TagHeap.EditClone | src/bedrock/nbt/compound_tag.cpp:346-351 | changing the clone in any way leaves the compound and its encoding as they are |
| Decimal.ValueOfText | scripts/dump_symbols.py:265-269 | a numeral is digits only, not empty, and reading it gives the number |
| Decimal.ValueConcat | scripts/dump_symbols.py:265-268 | the value of digits behind digits: the most significant one stands first |
| Decimal.IntTextInjective | include/endstone/nbt/tag.h:604-611 | different integers are spelled differently |
| SnbtSpelling.IntegersSpelled | include/endstone/nbt/tag.h:585-619 | a byte ends in b, a short in s, a long in L and an int in nothing |
| SnbtSpelling.RealsSpelled | include/endstone/nbt/tag.h:621-645 | a float ends in f and a double in d, after a point and a zero if there was neither point nor exponent |
| SnbtSpelling.IntegerDigits | include/endstone/nbt/tag.h:585-619 | an integer is a sign if below zero and a decimal numeral without a leading zero |
| SnbtSpelling.ByteArraySpelled | include/endstone/nbt/tag.h:647-661 | a byte array opens with [B; and has each byte with its b, commas between, and a bracket |
| SnbtSpelling.IntArraySpelled | include/endstone/nbt/tag.h:672-679 | an int array opens with [I; and has the bare ints, commas between, and a bracket |
| SnbtSpelling.ListSpelled | include/endstone/nbt/tag.h:681-688 | a list is its elements in square brackets with commas between |
| SnbtSpelling.CompoundSpelled | include/endstone/nbt/tag.h:690-707 | a compound is its escaped keys, each with a colon and its value, in braces with commas between |
| SnbtSpelling.StringSpelled | include/endstone/nbt/tag.h:714-719 | a string is bare exactly when it is a word, and else stands between two equal quotes |
| SnbtSpelling.QuoteSpelled | include/endstone/nbt/tag.h:739-758 | the quote is the one that does not occur first, and the double one if none occurs |
| SnbtSpelling.EscapeSpelled | include/endstone/nbt/tag.h:723-755 | backslashes and braces are doubled, the delimiter gets a backslash, and every other character stands as it is |
| SnbtSpelling.EscapeConcat | include/endstone/nbt/tag.h:723-755 | escaping goes character by character |
| SnbtReading.BodyParses | include/endstone/nbt/tag.h:722-760 | inside quotes the closing quote is the first unescaped one, and pairs of backslashes and braces are undone |
| SnbtReading.EscapeParses | include/endstone/nbt/tag.h:709-762 | an escaped string, followed by anything but a word character, is read as the string and nothing more |
| SnbtReading.EscapeInjective | include/endstone/nbt/tag.h:709-762 | one function undoes every escaping; strings are escaped alike only if they are equal |
| SnbtReading.NumTextIsWord | include/endstone/nbt/tag.h:585-645 | every number prints as a bare word |
| SnbtReading.ArrayValueParses | include/endstone/nbt/tag.h:647-679 | an array's text is read as its kind and its words |
| SnbtReading.ValueParses | include/endstone/nbt/tag.h:568-707 | the text of any tag, followed by what may follow a value, is read as the tag's skeleton, lists of a single End taken as empty, and nothing more |
| SnbtReading.TextShowsSkeleton | include/endstone/nbt/tag.h:568-762 | any two tags print alike if and only if, lists of a single End taken as empty, they have the same nesting, kinds, keys and spellings |
| SnbtReading.ReadsBackExactly | include/endstone/nbt/tag.h:568-707 | a tag's own skeleton is read back if and only if no list in it holds a single End |
| SnbtReading.PrintNorm | include/endstone/nbt/tag.h:681-707 | emptying every list of a single End, at any depth, does not change the text |
| SnbtReading.SingleEndReadsAsEmpty | include/endstone/nbt/tag.h:568-583 | a list holding a single End prints as the empty list does |
| SnbtFormat.FormatEscaped | include/endstone/nbt/tag.h:709-762 | the loop with its placeholder for the quote produces the specified escaping |
| SnbtFormat.FormatByteArray | include/endstone/nbt/tag.h:647-661 | the loop with its changing separator prints the array |
| SnbtFormat.JoinElems | include/endstone/util/format.h:87-101 | the joining loop puts one comma between neighbours and none elsewhere |
| SnbtFormat.JoinEntries | include/endstone/util/format.h:87-101 | the same for the entries of a compound |
| SnbtFormat.Format | include/endstone/nbt/tag.h:568-707 | the formatters of all kinds together print what the specification says |
| SnbtMeaning.NumTextShowsNumber | include/endstone/nbt/tag.h:585-645 | the spelling of a number determines its kind, and its value but for floats and doubles printed alike |
| SnbtMeaning.PrintAlike | include/endstone/nbt/tag.h:568-762 | any two tags print alike if and only if, lists of a single End taken as empty, they agree everywhere, except that a number may stand for the string that spells it |
| SnbtMeaning.PrintInjective | include/endstone/nbt/tag.h:568-762 | without floats, doubles and words that could be numbers, tags print alike if and only if they are the same, lists of a single End taken as empty |
| SharedPointers.ResetSafe | src/bedrock/shared_ptr.h:60-73 | a reset keeps the invariant even when it deletes an object whose members start further deletions, and touches only what those objects own |
| SharedPointers.DestroySafe | src/bedrock/shared_ptr.h:50 | a destructor keeps the invariant and the variable is gone |
| SharedPointers.DestroyAllSafe | src/bedrock/shared_ptr.h:60-73 | destroying all members of a dying object keeps the invariant, whatever they point to, the dying object included |
| SharedPointers.ReleaseShared | src/bedrock/shared_ptr.h:60-73 | dropping a strong holder that is not the last only lowers the count |
| SharedPointers.WeakReset | src/bedrock/shared_ptr.h:137-145 | a weak reset keeps the invariant in the middle of a deletion too, and frees the counter block only after the object is gone |
| SharedPointerCycles.ResetAgrees | src/bedrock/shared_ptr.h:60-73 | inside any cascade a reset does the same whether or not an object owns the outer variable, until that object is deleted, and faults then |
| SharedPointerCycles.DestroyAllFaults | src/bedrock/shared_ptr.h:60-73 | destroying a variable in the middle of its own reset is a second delete, wherever it comes among the members |
| SharedPointerSupport.ResetKept | src/bedrock/shared_ptr.h:60-73 | objects that hold each other up without the variables being reset survive any cascade |
| SharedPointerSupport.ResetGone | src/bedrock/shared_ptr.h:60-73 | when a cascade deletes an object, every variable that the object owned is gone after it |
| SharedPointerCycles.SurvivesExactly | src/bedrock/shared_ptr.h:60-73 | resetting a variable that nobody owns spares exactly the objects held up without it |
| SharedPointerCycles.OwnedResetExactly | src/bedrock/shared_ptr.h:60-73 | resetting an owned variable faults exactly when, in the ownership graph before the call, nothing but that variable holds its owner up; otherwise it keeps the invariant |
| SharedPointerCycles.ResetSafeExactly | src/bedrock/shared_ptr.h:60-73 | a reset of any live variable faults exactly when that variable is all that holds its owner up |
| SharedPointerCycles.UnreachedOwnerIsSafe | src/bedrock/shared_ptr.h:60-73 | it suffices that no chain of strong members leads from the target to the owner |
| SharedPointerRuns.WeakAssignIs | src/bedrock/shared_ptr.h:117-127 | counting the source before the reset comes to the same as resetting first |
| SharedPointerEffects.CopyIs | src/bedrock/shared_ptr.h:42-48 | a copy of either kind sees what its source sees, is counted once as what it is, and changes nothing else |
| SharedPointerEffects.WeakAssignSees | src/bedrock/shared_ptr.h:117-127 | the destination sees what the source sees, the counts follow, and a counter block goes exactly when nothing needs it |
| SharedPointerEffects.MakeIs | src/bedrock/shared_ptr.h:34-40 | the first holder sees the new object and is the one that is counted, and nothing else changes |
| SharedPointerEffects.WeakResetIs | src/bedrock/shared_ptr.h:137-145 | the variable sees nothing, its counter counts one less, and goes exactly when it was the last weak holder of an object already gone |
| SharedPointerEffects.SharedResetIs | src/bedrock/shared_ptr.h:60-73 | dropping a strong holder that is not the last lowers one count and clears one variable |
| SharedPointerEffects.ResetIs | src/bedrock/shared_ptr.h:60-73 | all that the reset of a variable nobody owns does: which objects go, which variables go, and that the others hold what they held |
| SharedPointerRuns.WeakAssignKeeps | src/bedrock/shared_ptr.h:117-127 | weak assignment keeps the invariant, also onto itself and between pointers that share a counter |
| SharedPointerRuns.CopyKeeps | src/bedrock/shared_ptr.h:91-113 | the copy constructors keep the invariant |
| SharedPointerRuns.MakeKeeps | src/bedrock/shared_ptr.h:34-40 | a new object with its first holder keeps the invariant |
| SharedPointerRuns.StepKeeps | src/bedrock/shared_ptr.h:29-145 | every operation keeps the invariant, but for resets of a variable that is all that holds its owner up |
| SharedPointerRuns.RunKeeps | src/bedrock/shared_ptr.h:29-145 | every run of such operations keeps the invariant |
| SharedPointerRuns.RunIsSafe | src/bedrock/shared_ptr.h:29-145 | after any such run the counts are the numbers of live holders, no deleted counter block is named, a strong holder's object lives, and nothing was deleted twice |
| SharedPointerRuns.RunConserves | src/bedrock/shared_ptr.h:60-73 | the objects and counter blocks a run created are exactly those live and those deleted |
| SharedPointerRuns.NoHoldersNoStore | src/bedrock/shared_ptr.h:137-145 | when no holder is left, those inside objects included, no object and no counter block is |
| SharedPointerRuns.AllFreedExactlyOnce | src/bedrock/shared_ptr.h:29-145 | after a run that leaves no holder, everything it created has been deleted, once |
| SharedPointerCycles.ResetOfOwnTarget | src/bedrock/shared_ptr.h:60-73 | resetting a strong variable stored in its own target faults exactly when it is the last strong holder |
| SharedPointerRuns.UnsafeResetIsReached | src/bedrock/shared_ptr.h:60-73 | a four-step program reaches such a reset |
| SharedPointerStore.Store.ResetWeakPtr | src/bedrock/shared_ptr.h:137-145 | the assignments in order make the specified new state and keep the invariant |
| SharedPointerStore.Store.ResetSharedPtr | src/bedrock/shared_ptr.h:60-73 | the reset makes the specified new state, faults exactly when the variable is all that holds its owner up, and keeps the invariant otherwise |
| SharedPointerStore.Store.ReleaseStrong | src/bedrock/shared_ptr.h:60-73 | the assignments in order, the deletion in their middle, make the specified new state |
| SharedPointerStore.Store.CopyPtr | src/bedrock/shared_ptr.h:42-48 | the copy constructor makes the specified new state |
| SharedPointerStore.Store.AssignWeakPtr | src/bedrock/shared_ptr.h:117-127 | weak assignment makes the specified new state |
| HandlerLists.FromIsStableSort | include/endstone/event/handler_list.h:107-120 | the buckets in priority order, one after another, are a stable sort of the registrations |
| HandlerLists.StableSortUnique | include/endstone/event/event_priority.h:26-53 | there is only one stable sort by priority |
| HandlerLists.ExceptBucketed | include/endstone/event/handler_list.h:62-73 | erasing from one bucket is erasing from the registrations |
| HandlerLists.ExceptPluginBucketed | include/endstone/event/handler_list.h:80-90 | erasing a plugin's handlers from every bucket is erasing them from the registrations |
| HandlerLists.ExceptIsErase | include/endstone/event/handler_list.h:67-72 | erasing the one position found is erasing the handler |
| HandlerLists.ExceptPluginConcat | include/endstone/event/handler_list.h:84-87 | taking out a plugin's handlers goes part by part |
| HandlerLists.ExceptPluginKeepsOrder | include/endstone/event/handler_list.h:84-87 | what is left stands in the order it stood in |
| HandlerLists.HandlerList.FindIf | include/endstone/event/handler_list.h:67-69 | the first position whose handler has the address looked for, or the end |
| HandlerLists.HandlerList.RegisterHandler | include/endstone/event/handler_list.h:43-55 | a handler for another event is refused; any other, at an address of its own, becomes the last registration |
| HandlerLists.HandlerList.Unregister | include/endstone/event/handler_list.h:62-73 | exactly the handler is gone, and the others stand in the order they stood in; a cache that is still marked valid is right |
| HandlerLists.HandlerList.UnregisterPlugin | include/endstone/event/handler_list.h:80-90 | exactly the plugin's handlers are gone, and the others stand in the order they stood in |
| HandlerLists.HandlerList.Bake | include/endstone/event/handler_list.h:107-120 | the nested loops fill the cache with the flattened buckets |
| HandlerLists.HandlerList.GetHandlers | include/endstone/event/handler_list.h:97-104 | the answer is the live registrations stably sorted by priority, with nothing erased among them |
| HandlerLists.Run | include/endstone/event/handler_list.h:43-120 | every answer of every run of registrations, removals and queries is that of the list that sorts from scratch |
| ItaniumScope.ReadNumber | scripts/dump_symbols.py:264-268 | a length is read up to the first character that is not a digit and has the value of its digits |
| ItaniumScope.SkipTemplateArgs | scripts/dump_symbols.py:275-291 | the skipping loop moves strictly forward, never reads out of range though a length may lead past the end, and ends where the reading does |
| ItaniumScope.GetScopesItanium | scripts/dump_symbols.py:249-312 | the pass terminates on every string without reading out of range and finds the scope of the reading |
| ItaniumMangling.NameAt | scripts/dump_symbols.py:263-273 | a counted identifier is read as the identifier and nothing more |
| ItaniumMangling.SkipGroup | scripts/dump_symbols.py:275-291 | nested template argument lists count each other out, at any depth and whatever names they contain |
| ItaniumMangling.SkipAll | scripts/dump_symbols.py:275-291 | template arguments are skipped exactly |
| ItaniumMangling.ReadComponents | scripts/dump_symbols.py:262-302 | the names of a nested name are read in order, and a constructor or destructor code is noticed |
| ItaniumMangling.ScopeOfMangled | scripts/dump_symbols.py:249-312 | the scope of a mangled name, whatever follows it, is all names but the last, or all of them before a constructor or destructor code |
| ItaniumMangling.JoinedConcat | scripts/dump_symbols.py:307-312 | names are joined by two colons |
| ItaniumMangling.NotNested | scripts/dump_symbols.py:251-255 | a text that does not begin like a nested name has no scope |
| ItaniumMangling.ForeignCharacter | scripts/dump_symbols.py:292-300 | a character where a name, a code or the E is due, and which is none of them, leaves no scope, whatever follows |
| ItaniumMangling.Unterminated | scripts/dump_symbols.py:302-303 | a nested name without its E has no scope |
| ItaniumMangling.LengthPastEnd | scripts/dump_symbols.py:269-270 | a length that leads past the end leaves no scope |
| ItaniumMangling.UnclosedArguments | scripts/dump_symbols.py:275-303 | template arguments that are not closed leave no scope |
| ItaniumMangling.NamesAreCounted | scripts/dump_symbols.py:262-302 | on any string, every name read stands in it right after a numeral of its length |
| ItaniumMangling.ScopeIsNames | scripts/dump_symbols.py:301-312 | on any string there is no scope, or one made of such names, and the innermost scope is the last of them |
| Rotation.Vector.CrossProduct | include/endstone/util/vector.h:338-347 | the vector becomes the cross product, also with itself |
| Rotation.Vector.RotateAroundX | include/endstone/util/vector.h:468-475 | the rotation about the x axis is Rodrigues' formula for that unit vector |
| Rotation.Vector.RotateAroundY | include/endstone/util/vector.h:484-491 | the same for the y axis |
| Rotation.Vector.RotateAroundZ | include/endstone/util/vector.h:500-507 | the same for the z axis |
| Rotation.Vector.RotateAroundNonUnitAxis | include/endstone/util/vector.h:549-566 | the components computed are Rodrigues' formula, also when the axis is the vector itself |
| Rotation.DotOfRotated | include/endstone/util/vector.h:549-566 | what a rotation about any axis adds to a dot product |
| Rotation.RotationIsIsometry | include/endstone/util/vector.h:549-566 | about a unit axis every dot product is kept |
| Rotation.LengthKeptExactly | include/endstone/util/vector.h:535-566 | exactly when a rotation about an axis of any length keeps a vector's length |
| Rotation.RotationsAdd | include/endstone/util/vector.h:549-566 | two rotations about a unit axis are one by the sum of the angles |
| Rotation.RotationUndone | include/endstone/util/vector.h:549-566 | turning back gives the vector back |
| Rotation.AxisStays | include/endstone/util/vector.h:549-566 | exactly when the axis is fixed by its own rotation |
| Rotation.TurnsRightHanded | include/endstone/util/vector.h:535-566 | a vector across a unit axis turns by the right-hand rule, by the angle of the cosine and sine given |
| Rotation.AxesTurn | include/endstone/util/vector.h:468-507 | about each coordinate axis, the next axis turns towards the one after it |
| Rotation.CrossOfAxes | include/endstone/util/vector.h:338-347 | the axes are right-handed, and swapping the factors turns a cross product round |
| Images.PixelsApart | include/endstone/util/image.h:118 | every pixel's index is inside the buffer and different coordinates have different indices |
| Images.RowMajor | include/endstone/util/image.h:118 | rows follow each other from the top, and pixels in a row from the left |
| Images.PutBytes | include/endstone/util/image.h:147-168 | red, green, blue and alpha are written in this order, as many as the type keeps, and no other byte |
| Images.ColorAfterPut | include/endstone/util/image.h:116-168 | a color written is read back as far as the type keeps it, and every other pixel is as it was |
| Images.Image.constructor | include/endstone/util/image.h:57-60 | four zero bytes a pixel |
| Images.Image.Copying | include/endstone/util/image.h:67-73 | the bytes given are copied as far as both buffers reach, and the rest is zero |
| Images.Image.GetColor | include/endstone/util/image.h:116-140 | reads the pixel's color inside the buffer |
| Images.Image.SetColor | include/endstone/util/image.h:147-168 | the pixel reads as the kept channels and every other pixel in range as before |
| Images.FromBuffer | include/endstone/util/image.h:202-224 | succeeds exactly for a valid type and a buffer of the packed size, and then holds its bytes |
| Images.PackedReadExactly | include/endstone/util/image.h:116-224 | exactly which pixels of a packed buffer are read as they were packed |
| Images.PackedByteRead | include/endstone/util/image.h:116-224 | which byte of a packed buffer is which channel of a pixel |

## Left out

- `IDataInput`: its implementations are not part of this model; any reader that satisfies the codec laws is
  covered, and the mirror images of the two writers are shown to be such readers.
- Float and double payloads are bit patterns compared exactly, so `equals` on NaN and on zeros of different
  sign is not modelled.
- `{:g}` is a parameter: all that is used of it is that it prints the characters of a bare word.
- NbtRoundTrip.RoundTripsExactly: asks that list types exist; NbtUnknown.RoundTripsInByteOrder also decides
  trees with unknown list types that stand below lists only. Below a compound a misread entry may be overwritten
  by a later one of the same name, and such trees are not decided.
- NbtRoundTrip.LoadWriteLoad: asks that the list types of the loaded tree exist, because a loaded list may carry
  a type number that does not.
- NbtUnknown.RoundTripsInByteOrder: says nothing of a compound above a list of unknown type.
- A `reserve` so large that memory runs out: only a negative size throws.
- TagHeap.DeepCopy: requires that neither tree is inside the other, because clearing the target destroys what it
  owned; the copy of a compound onto itself is NbtIo.CompoundTag.DeepCopy.
- TagHeap: a variant's storage is one object for its place, and what a tag holds after it was moved from is
  not described.
- Tag hashing (it hashes element addresses), the typed getters and setters, `print` and `toString` of tags:
  one-line wrappers or no property worth stating.
- SharedPtr copy assignment: the class does not define it, and the generated one does not count.
- Interleaved threads: pointer operations and handler list methods are atomic steps. The decrement of a count
  and the later read of the other are separate atomic operations in the program.
- SharedPointerRuns.StepKeeps: leaves out resets of a variable that is all that holds its owner up; that exactly
  these fault is SharedPointerCycles.ResetSafeExactly.
- Objects whose strong members form a cycle keep each other alive when nothing else holds them, so that a
  program's last own pointer may leave holders behind; freeing is claimed when no holder is left.
- Handlers are values with an address; what they do when called, and the event dispatch, are not modelled.
- Substitutions, `N..E` names, literals and expressions inside template arguments: the skipping loop does not
  count their openers, so the grammar does not contain them.
- ItaniumScope.GetScopesItanium: digits are the ASCII ones, while `str.isdigit` also accepts others, for which
  the arithmetic on character codes would give large numbers.
- The scope reader for MSVC names and the rest of the symbol script: downloads, binaries, header writing.
- Vector components are reals, and an angle is its cosine and sine; rounding, `normalize`, `isNormalized` with
  its tolerance and `angle` are not modelled.
- Image dimensions are natural numbers, so the overflow of `width * height * 4` and negative sizes are not
  modelled.
- The scheduler, plugins, permissions, commands, inventories, scoreboards, packets, native hooks and the
  Python side.
