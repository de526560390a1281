# ql common library — a verified Dafny model

This project models the header-only C++ library `ql` (qualia-common). The library reimplements
standard-library building blocks:

- reference-counted owning and observing pointers (`Ptr`, `UniquePtr`, `SharedPtr`, `WeakPtr`);
- a tagged union `Variant` with a per-alternative destructor table and an N-dimensional
  `visit` dispatch matrix, and `Result<T, E>` built on it;
- the compile-time type-list helpers these use;
- the containers `Vector`, `String` (small-string optimised, with a reference-counted large form)
  and `List`, and the allocator arithmetic behind `Vector`;
- the small helpers in `algorithm.hpp`, `array.hpp`, `tuple.hpp`, `bit.hpp`, `iterator.hpp`,
  `utility.hpp` and `functional.hpp`.

Each header is one module:

| module | file | header | form |
|---|---|---|---|
| `Common` | common.dfy | (shared) | `Option`, and `Ref<T>`, a cell standing for a C++ lvalue reference |
| `TypeList` | types.dfy | types.hpp | functions over `seq<TypeTag>` |
| `Variants` | variant.dfy | variant.hpp | recursive union datatype, `Variant` class, dispatch matrix |
| `Results` | result.dfy | result.hpp | functions over the variant state |
| `Memory` | memory.dfy | memory.hpp | handle classes over shared counter and payload objects |
| `Allocators` | allocator.dfy | allocator.hpp | arithmetic |
| `Vectors` | vector.dfy | vector.hpp (+ range helpers of memory.hpp) | class over an array of slots |
| `Strings` | strings.dfy | string.hpp | byte encodings as functions, `String` class over a 24-byte array |
| `Lists` | list.dfy | list.hpp | linked `Node` objects with a ghost chain |
| `Algorithms` | algorithm.dfy | algorithm.hpp | functions, array copy, hash loops |
| `Arrays` | array.dfy | array.hpp | datatype with member functions |
| `Tuples` | tuple.dfy | tuple.hpp | map from `(index, type)` bases to values |
| `Bits` | bit.dfy | bit.hpp | class over a 32-bit vector |
| `Iterators` | iterator.dfy | iterator.hpp | counting loop and subtraction |
| `Utility` | utility.dfy | utility.hpp | functions and a `Ref` update |
| `Functional` | functional.dfy | functional.hpp | `Function` class over wrapper objects, range loops |

Modelling conventions:

- A C++ type is a `TypeTag(name, size)`, where `size` is its `sizeof`. A parameter pack is a
  sequence of tags. Values stored in variants and tuples share one payload type `V`.
- `delete` clears a `live` flag on the freed object, so frees and leaks can be stated.
- `size_t` and `uint64_t` arithmetic is on naturals below 2^64, reduced explicitly where the
  code wraps. Bit masks on the string capacity word are written as arithmetic on bits 62 and 63.
- Undefined behaviour the code can reach (null dereference, out-of-range index, modulo by
  zero, overlapping `memcpy`) is excluded by `requires`. Compile-time failures (no matching
  overload, `static_assert`) are excluded the same way. The exceptions, where the model
  instead takes a defined reading, are each named under "Left out".

The model follows the code where it departs from the standard-library behaviour it imitates:

- The `SharedPtr` and `WeakPtr` move constructors and move assignments pass a named parameter.
  This selects the copying `assign`, so a "move" takes one more reference.
- `SharedPtr::weak_ref_count` reads the strong counter.
- `WeakPtr::decrement_weak_ref_count` nulls `m_strongRefCount` before deleting it, so nothing is
  freed.
- An owner obtained through `lock()` carries the weak counter. When it gives up the last strong
  reference it deletes the strong counter that observers still point at
  (`Memory.LockedOwnerFreesCounter`).
- `Variant::operator=` calls `destruct()` without resetting the index. Assigning the active
  alternative again therefore assigns into the object just destroyed.
- `Vector::resize` that shrinks destroys the first `m_size - count` elements and keeps the
  first `count` slots (`Vectors.ShrinkByHalfKillsKept`).
- `Vector::push_back`, `emplace_back` and `assign(items, size)` raise `m_size` before
  `reserve`, which then moves all `m_size` slots out of the old buffer, reading past its end
  (see `Vectors.Vector.Reserve` under "Left out").
- `Vector(Vector&&)` passes the named `other` to `assign`, which selects the copying
  `assign(const Vector&)`: the source is copied, not emptied. Both the copy and the move
  constructor are therefore `assign(other.begin(), other.size())`, that is
  `Vectors.Vector.Assign`.
- `Vector::insert` never stores the inserted value. It writes `T()` into the new last slot.
- `String::SharedData::decrement_ref_count` is a post-decrement, and it frees only when the old
  count was 0. A lone Large string is never freed.
- Copying a Large `String` shares its block without raising the count.
- `List` never sets `previous`, and `remove` never lowers `m_size`. Removing the tail sets
  `m_end` to null.
- `Function::cleanup` does not reset `m_callable`.

## Model

| member | source | states |
|---|---|---|
| TypeList.GetFirstType | include/common/types.hpp:50-54 | the head of a non-empty pack is its first type, hence a member of it |
| TypeList.RemoveNTypesFrom | include/common/types.hpp:56-68 | counting `I` up to `N` drops exactly `N - I` leading types and leaves a non-empty pack |
| TypeList.RemoveNTypes | include/common/types.hpp:76-89 | `remove_n_types<N>` is the suffix after the first `N` types; `N = 0` keeps the pack; needs `N` below the length |
| TypeList.GetNthType | include/common/types.hpp:121-125 | `get_nth_type<I>` is the element at position `I` |
| TypeList.GetTypeFromIndex | include/common/types.hpp:185-189 | agrees with `get_nth_type<I>` and with position `I` |
| TypeList.GetLargestType | include/common/types.hpp:127-144 | the result is in the pack and no element is larger |
| TypeList.LargestTypeIsLastMaximal | include/common/types.hpp:133-144 | ties resolve to the later element: nothing after the chosen position is as large |
| TypeList.GetLargestTypeSize | include/common/types.hpp:146-156 | the maximum `sizeof` in the pack, attained by some element |
| TypeList.GetIndexFromTypeFrom | include/common/types.hpp:158-170 | the helper returns `I` plus the offset of the first occurrence of `T` |
| TypeList.GetIndexFromType | include/common/types.hpp:172-183 | the position of the first element equal to `T`, defined only when `T` occurs |
| TypeList.NextTypeGetTypeSplit | include/common/types.hpp:191-207 | `get_type` and `next_type` split the pack into head and tail, and the size drops by one |
| TypeList.IsAnyOf | include/common/types.hpp:221-222 | the fold holds iff `T` equals some element |
| TypeList.IndexOfNthType | include/common/types.hpp:172-183 | with unique types, the index of the `i`-th type is `i` |
| TypeList.NthTypeOfIndex | include/common/types.hpp:121-125 | the type at the index found for `T` is `T` |
| Variants.DefaultUnion | include/common/variant.hpp:127-132 | the default union has one member per alternative and none holds a value |
| Variants.InPlace | include/common/variant.hpp:113-125 | the in-place constructor for `I` initialises exactly member `I` |
| Variants.AssignAt | include/common/variant.hpp:138-149 | `assign<I>` writes member `I` and leaves every other member as it was |
| Variants.GetAt | include/common/variant.hpp:151-175 | `get<I>` reads the value held by member `I` |
| Variants.GetAfterAssign | include/common/variant.hpp:138-175 | `get<j>` after `assign<i>` gives the assigned value for `j = i` and the old value otherwise |
| Variants.MakeDestructorsFrom | include/common/variant.hpp:277-290 | entry `i` destroys (through `std::get` by type) only a non-trivially destructible, destructible alternative, else does nothing |
| Variants.Destructors | include/common/variant.hpp:292 | the table has one entry per alternative |
| Variants.TeardownDestroysActive | include/common/variant.hpp:267-292 | at the sentinel nothing is destroyed; otherwise exactly the active member, when its type has a non-trivial destructor |
| Variants.Initialised | include/common/variant.hpp:294-295 | a fresh variant has the sentinel index `sizeof...(Ts)`, an all-empty union, and tears down to nothing |
| Variants.ConstructedState | include/common/variant.hpp:235-241 | `construct<I>` leaves index `I` with member `I` holding the value |
| Variants.VariantIndex | include/common/variant.hpp:82-86 | `variant_index_v<T>` is an in-range position whose alternative is `T` |
| Variants.HoldsAlternative | include/common/variant.hpp:356-360 | true only when the active alternative is `T` |
| Variants.HoldsAlternativeIffActive | include/common/variant.hpp:356-360 | with unique alternatives, `holds_alternative<T>` holds iff the active alternative is `T` |
| Variants.GetByType | include/common/variant.hpp:205-215 | `get<T>` reads the member at `T`'s index |
| Variants.GetByIndex | include/common/variant.hpp:217-227 | `get<I>` reads the member at the index of alternative `I`, which is at most `I`, and is member `I` itself when the alternatives are unique |
| Variants.GetByIndexReadsMember | include/common/variant.hpp:217-227 | with unique alternatives, `get<I>` reads member `I` |
| Variants.Variant.FromValue | include/common/variant.hpp:184-189 | constructing from a value gives index `I`, member `I` holding it, one construction logged |
| Variants.Variant.Construct | include/common/variant.hpp:235-241 | the new state is the in-place construction of `I`, logged |
| Variants.Variant.AssignIndexed | include/common/variant.hpp:243-248 | index becomes `I` and only member `I` changes |
| Variants.Variant.Assign | include/common/variant.hpp:250-265 | in place when `index() == j`, constructed otherwise; `index() == j` afterwards in both cases |
| Variants.Variant.Destruct | include/common/variant.hpp:267-275 | runs exactly the teardown of the active index; index and union unchanged |
| Variants.Variant.AssignValue | include/common/variant.hpp:196-203 | teardown of the old alternative, then in-place assignment or construction, with no index reset in between: at the same index only member `j` changes; at another index the state is that of `construct<j>` |
| Variants.Variant.Dispose | include/common/variant.hpp:191-194 | the destructor runs the teardown of the active index |
| Variants.AtCreatedMatrix | include/common/variant.hpp:312-351 | indexing the created matrix by an in-range tuple reaches the leaf built for exactly that tuple |
| Variants.Visit | include/common/variant.hpp:362-368 | `visit` calls the visitor with each variant's active alternative |
| Variants.TypeCheckingScenario | tests/tests.cpp:80-91 | after assigning a float only float is held; after assigning an int only int is held |
| Results.ResultAlternatives | include/common/result.hpp:7-10 | a Result is a Variant over value type then error type |
| Results.MakeResult | include/common/result.hpp:16-19 | construction forwards to the two-alternative Variant |
| Results.HasValue | include/common/result.hpp:28-31 | `has_value()` iff index 0 is active |
| Results.HasError | include/common/result.hpp:33-36 | `has_error()` iff the index of `error_type` is active |
| Results.HasErrorIffErrorActive | include/common/result.hpp:33-36 | for distinct `T` and `E`, `has_error()` iff index 1 is active |
| Results.NotBothValueAndError | include/common/result.hpp:28-36 | for distinct `T` and `E`, never both a value and an error |
| Results.ConstructedResultAlternative | include/common/result.hpp:16-36 | built from a value: value and no error; built from an error: the reverse |
| Results.Value | include/common/result.hpp:38-46 | `value()` reads the value member |
| Results.Error | include/common/result.hpp:48-56 | `error()` reads the member at `error_type`'s index |
| Results.ReadBackConstructed | include/common/result.hpp:16-56 | `value()` or `error()` returns what the Result was built from |
| Results.VariantSize | include/common/result.hpp:73-77 | `variant_size` is 2 |
| Results.VariantAlternative | include/common/result.hpp:66-70 | alternative 0 is `T` and alternative 1 is `E` |
| Allocators.AllocateAtLeast | include/common/allocator.hpp:27-32 | the granted size is at least the request and above 4; requests above 4 are granted exactly; 0 is excluded |
| Allocators.SmallRequests | include/common/allocator.hpp:29-30 | 1, 2, 3 and 4 become 5, 6, 6 and 8 |
| Allocators.AllocateAtLeastIdempotent | include/common/allocator.hpp:27-32 | asking again for a granted size grants it unchanged |
| Memory.Ptr.Empty | include/common/memory.hpp:84 | the default pointer is null |
| Memory.Ptr.FromRaw | include/common/memory.hpp:87 | holds the given pointer |
| Memory.Ptr.FromMoved | include/common/memory.hpp:86 | takes the other's pointer and leaves it null |
| Memory.Ptr.Valid | include/common/memory.hpp:89 | valid iff non-null |
| Memory.Ptr.MoveAssign | include/common/memory.hpp:99-103 | the two pointers are exchanged |
| Memory.Ptr.AssignRaw | include/common/memory.hpp:105-109 | stores the given pointer |
| Memory.Ptr.Equals | include/common/memory.hpp:117-120 | equality is pointer identity |
| Memory.UniquePtr.constructor | include/common/memory.hpp:135-138 | a fresh live object holding the value |
| Memory.UniquePtr.Destruct | include/common/memory.hpp:177-181 | deletes the object and nulls the pointer |
| Memory.UniquePtr.Dispose | include/common/memory.hpp:140-144 | the destructor deletes the object only when valid |
| Memory.UniquePtr.AssignPtr | include/common/memory.hpp:164-171 | deletes the held object, then holds the new pointer |
| Memory.UniquePtr.AssignUnique | include/common/memory.hpp:146-162 | deletes the held object, then holds the other's, which keeps its pointer too (two owners, also after a move); a self-assignment ends null |
| Memory.MakeUnique | include/common/memory.hpp:450-454 | a valid handle to a fresh live object with the value |
| Memory.SharedPtr.StrongRefCount | include/common/memory.hpp:281 | the strong count, 0 through a null counter |
| Memory.SharedPtr.WeakRefCount | include/common/memory.hpp:282 | reads the strong counter, 0 through a null one |
| Memory.SharedPtr.UseCount | include/common/memory.hpp:270 | `use_count()` is the strong count |
| Memory.SharedPtr.Unique | include/common/memory.hpp:272 | `unique()` iff `use_count() == 1` |
| Memory.SharedPtr.Valid | include/common/memory.hpp:274-277 | `valid()` iff `use_count() > 0` |
| Memory.SharedPtr.Empty | include/common/memory.hpp:202 | all three pointers null, use count 0 |
| Memory.SharedPtr.FromValue | include/common/memory.hpp:204-208 | a fresh object and a fresh strong counter at 1, so `use_count() == 1` and `unique()` |
| Memory.SharedPtr.FromShared | include/common/memory.hpp:210-211 | from a valid owner: shares object and counters, strong count one higher; from an invalid one: empty |
| Memory.SharedPtr.FromWeak | include/common/memory.hpp:209 | the same through a weak handle |
| Memory.SharedPtr.IncrementStrong | include/common/memory.hpp:295-298 | the strong count rises by one |
| Memory.SharedPtr.DecrementStrong | include/common/memory.hpp:284-293 | the strong count drops by one; with a weak counter attached, reaching 0 deletes and nulls the strong counter |
| Memory.SharedPtr.Destruct | include/common/memory.hpp:300-310 | decrements only when positive; deletes and nulls the object exactly when it is non-null and the count reads 0 |
| Memory.SharedPtr.Dispose | include/common/memory.hpp:213 | the destructor is `destruct()` |
| Memory.SharedPtr.AssignShared | include/common/memory.hpp:253-262 | from a valid owner: shares object and counters and counts one more owner; otherwise nothing changes |
| Memory.SharedPtr.AssignWeak | include/common/memory.hpp:242-251 | the same from a weak handle |
| Memory.SharedPtr.AssignMove | include/common/memory.hpp:264-268 | object and strong counter are exchanged; weak counters stay |
| Memory.SharedPtr.CopyAssign | include/common/memory.hpp:224-240 | as written: releases its reference when valid, then shares a valid other's object and counters with one more owner; an invalid other leaves this handle with its object and the counter it just decremented; a shared counter at use count 1 frees the object and leaves the handle empty |
| Memory.SharedPtr.CopyAssignFixed | include/common/memory.hpp:224-240 | corrected: a valid other is shared with one more owner (no change when the counter is already shared); an invalid other leaves the handle empty; the old reference is released exactly once and the object kept alive unless that was its last owner |
| Memory.SharedPtr.AssignFromWeak | include/common/memory.hpp:215-222 | releases its reference when valid, then takes a strong reference through a valid weak handle; an invalid weak handle leaves this handle with its object and the decremented count; a shared counter at use count 1 frees the object |
| Memory.MakeShared | include/common/memory.hpp:456-460 | a fresh owner with use count 1 |
| Memory.WeakPtr.WeakRefCount | include/common/memory.hpp:418 | the weak count, 0 through a null counter |
| Memory.WeakPtr.UseCount | include/common/memory.hpp:390-400 | the strong count while the weak count is positive, else 0 |
| Memory.WeakPtr.Expired | include/common/memory.hpp:402 | `expired()` iff `use_count() == 0` |
| Memory.WeakPtr.Valid | include/common/memory.hpp:404-407 | `valid()` iff not expired |
| Memory.WeakPtr.Empty | include/common/memory.hpp:332 | all pointers null, expired |
| Memory.WeakPtr.FromShared | include/common/memory.hpp:334 | from a valid owner: shares object and strong counter, fresh weak counter at 1, strong count unchanged |
| Memory.WeakPtr.FromWeak | include/common/memory.hpp:335-336 | from a valid observer: shares all three pointers and counts one more weak reference |
| Memory.WeakPtr.IncrementWeak | include/common/memory.hpp:434-437 | the weak count rises by one |
| Memory.WeakPtr.DecrementWeak | include/common/memory.hpp:420-432 | the weak count drops by one; at 0 object and strong pointers are nulled and nothing is freed |
| Memory.WeakPtr.Destruct | include/common/memory.hpp:439-443 | gives up one weak reference only when the weak count is positive |
| Memory.WeakPtr.AssignShared | include/common/memory.hpp:362-370 | from a valid owner: object and strong counter shared, fresh weak counter at 1, strong count unchanged |
| Memory.WeakPtr.AssignWeak | include/common/memory.hpp:372-381 | from a valid observer: all three pointers shared and one more weak reference |
| Memory.WeakPtr.AssignMove | include/common/memory.hpp:383-388 | all three pointers are exchanged |
| Memory.WeakPtr.AssignFromShared | include/common/memory.hpp:338-345 | gives up its weak reference when valid, then observes a valid owner through a fresh weak counter; an invalid owner leaves the old weak counter, decremented, nulling object and owner only when that count was 1 |
| Memory.WeakPtr.CopyAssign | include/common/memory.hpp:347-354 | gives up its weak reference when valid, then shares a valid other's weak counter with one more observer; the same counter at count 1 is released and the handle emptied; an invalid other leaves the decremented counter in place |
| Memory.WeakPtr.MoveAssign | include/common/memory.hpp:356-360 | never gives up the old weak reference; takes one more on the other's counter |
| Memory.WeakPtr.Lock | include/common/memory.hpp:411-414 | unexpired: a valid owner of the same object with the strong count one higher; expired: an empty owner |
| Memory.Observe | tests/tests.cpp:56-68 | reports `valid()` of the lock, which is the observer's validity; the lock is released again |
| Memory.WeakPtrScenario | tests/tests.cpp:54-78 | the lock is valid while the owner lives and invalid after it is destroyed |
| Memory.EmptyAssignmentFreesShared | include/common/memory.hpp:224-240 | two owners, then `p = SharedPtr{}` and `p`'s destructor: the object the other owner holds is deleted and its use count is 0 |
| Memory.EmptyAssignmentKeepsShared | include/common/memory.hpp:224-240 | the same with the corrected assignment: the object stays alive with use count 1 |
| Memory.LockedOwnerFreesCounter | include/common/memory.hpp:284-293 | an owner from `lock()` deletes the strong counter its observer still uses |
| Vectors.Destroy | include/common/memory.hpp:41-46 | `destroy_at` ends a live object's lifetime and touches nothing else |
| Vectors.DestroyRange | include/common/memory.hpp:48-53 | `destroy(first, last)` destroys exactly the slots of the range |
| Vectors.DefaultConstructRange | include/common/memory.hpp:18-33 | as written: a non-trivial `T` is constructed in every slot; for a trivial `T` the `memset` of `last - first` bytes zeroes only the slots lying wholly in those bytes; slots outside the range unchanged |
| Vectors.DefaultConstructRangeFixed | include/common/memory.hpp:18-33 | corrected (`memset` of `(last - first) * sizeof(T)` bytes): every slot of the range holds the default object; others unchanged |
| Vectors.TrivialZeroesPrefix | include/common/memory.hpp:25 | as written, slot `k` holds the zero object iff `k < (last - first) / sizeof(T)`, the slots lying wholly inside the cleared bytes; in the model every later slot, including one the byte boundary cuts through, keeps its old contents |
| Vectors.ByteElementsAgree | include/common/memory.hpp:18-33 | for a one-byte or non-trivial `T` the written and corrected versions agree and construct every slot |
| Vectors.IntRangeZeroesOneSlot | include/common/memory.hpp:25 | four fresh `int` slots: only the first is zeroed |
| Vectors.FixedConstructsEverySlot | include/common/memory.hpp:18-33 | the corrected version constructs every slot for every `T` |
| Vectors.MoveInto | include/common/vector.hpp:211-215 | `uninitialized_move` moves the first `n` slots and leaves the rest of the target |
| Vectors.Vector.Empty | include/common/vector.hpp:57 | `empty()` iff `size() == 0` |
| Vectors.Vector.Back | include/common/vector.hpp:108-109 | `back()` is the last element |
| Vectors.Vector.Default | include/common/vector.hpp:37 | no buffer, size and capacity 0 |
| Vectors.Vector.WithSize | include/common/vector.hpp:125-129 | `size` slots after `default_construct` of fresh storage: all default objects for a non-trivial `T`, only the first `size / sizeof(T)` zeroed for a trivial one |
| Vectors.Vector.FromItems | include/common/vector.hpp:156-160 | element `k` is `items[k]` for `k < size` |
| Vectors.Vector.Reserve | include/common/vector.hpp:204-220 | above the capacity: capacity `allocate_at_least(c)` (at least `c`) with the slots the old buffer holds moved in order (the source moves all `m_size`, see "Left out"); otherwise nothing changes |
| Vectors.Vector.ShrinkToFit | include/common/vector.hpp:222-238 | capacity becomes the size when larger, else unchanged; elements kept |
| Vectors.Vector.Resize | include/common/vector.hpp:240-255 | size becomes `count`; growing keeps the old elements and runs `default_construct` on the tail, over fresh slots when reallocated and over the old slots otherwise; shrinking destroys the first slots and shrinks to fit |
| Vectors.Vector.Extend | include/common/vector.hpp:249-254 | the growing branch: `reserve(count)` keeps the elements, then the tail is `default_construct`ed |
| Vectors.Vector.Clear | include/common/vector.hpp:65 | `resize(0)`: size 0 |
| Vectors.Vector.Assign | include/common/vector.hpp:196-202 | size `n` and element `k` equal to `items[k]` |
| Vectors.Vector.Grow | include/common/vector.hpp:257-266 | one more slot, earlier elements kept, the buffer reallocated only when full |
| Vectors.Vector.PushBack | include/common/vector.hpp:257-277 | size one higher, the item at the back, earlier elements kept, `size() <= capacity()` |
| Vectors.Vector.EmplaceBack | include/common/vector.hpp:429-439 | the same, returning the new last position |
| Vectors.Vector.PopBack | include/common/vector.hpp:441-446 | size one lower and the old last element destroyed |
| Vectors.Vector.Insert | include/common/vector.hpp:326-342 | out-of-range positions return `end()` and change nothing; otherwise one more slot holding `T()` |
| Vectors.Vector.Erase | include/common/vector.hpp:403-412 | size one lower, the element at `pos` destroyed, `end()` returned |
| Vectors.Vector.EraseRange | include/common/vector.hpp:414-427 | an empty range changes nothing; otherwise size lower by the range length and the range destroyed |
| Vectors.Vector.Swap | include/common/vector.hpp:448-454 | buffer, size and capacity exchanged |
| Vectors.Vector.AssignMove | include/common/vector.hpp:188-194 | the same three exchanges; moving from itself changes nothing |
| Vectors.Vector.Dispose | include/common/vector.hpp:456-465 | every element destroyed and all three fields reset |
| Vectors.ShrinkByHalfKillsKept | include/common/vector.hpp:240-248 | shrinking to at most half leaves no kept element alive |
| Strings.CategoryBits | include/common/string.hpp:433-435 | the masked byte has only bits 7 and 6 |
| Strings.Bits | include/common/string.hpp:362-367 | each enumerator's bits read back as that category |
| Strings.CategoryOf | include/common/string.hpp:444-447 | the category of the last byte; both bits set is no category |
| Strings.CategorizeSize | include/common/string.hpp:449-465 | Small iff `n <= 23`, Medium iff `24 <= n <= 255`, Large iff `n > 255` |
| Strings.RemainingCapacity | include/common/string.hpp:401-404 | the last byte sign-extended to `size_t` |
| Strings.SmallSizeRoundTrip | include/common/string.hpp:406-415 | `set_size(n)` then `size()` gives `n`, and the last byte `23 - n` reads as Small |
| Strings.AssembleSplit | include/common/string.hpp:423-428 | the capacity word is its top byte (the union's last byte) and its low bytes |
| Strings.CapacityRoundTrip | include/common/string.hpp:380-388 | `capacity()` after `set_capacity(c, cat)` gives `c` when `c` has no category bits, and the category reads back |
| Strings.NulIndex | include/common/string.hpp:18-26 | the position of the first NUL |
| Strings.Length | include/common/string.hpp:18-26 | the count of characters before the first NUL, modulo 2^16 |
| Strings.Compare | include/common/string.hpp:28-31 | the sign of the first difference, in -1..1 |
| Strings.CompareZeroIffEqual | include/common/string.hpp:28-31 | `compare` is 0 iff the prefixes are equal |
| Strings.EqualsAsWritten | include/common/string.hpp:179-185 | `operator==` holds iff the sizes agree and the first `size() % 65536` bytes differ (the count is a `uint16_t`) |
| Strings.SelfInequality | include/common/string.hpp:179-185 | `"a" == "a"` is false |
| Strings.WrappedCountComparesNothing | include/common/string.hpp:16-31 | two texts of 65536 bytes are never unequal under `operator==` as written, whatever they hold |
| Strings.Equals | include/common/string.hpp:179-185 | corrected: true iff the texts are equal |
| Strings.CopyChars | include/common/string.hpp:295 | `uninitialized_copy_n` copies the first `n` characters and nothing else |
| Strings.Block.constructor | include/common/string.hpp:52-56 | a fresh block with count 1 |
| Strings.CreateShared | include/common/string.hpp:58-70 | room for `size` characters and a NUL, reported capacity `size` |
| Strings.NewText | include/common/string.hpp:299-305 | a Medium allocation of `size + 1` characters, recorded capacity `size` |
| Strings.IncrementRefCount | include/common/string.hpp:84-87 | post-increment: returns the old count, which rises by one |
| Strings.DecrementRefCount | include/common/string.hpp:89-111 | post-decrement: returns the old count, and frees only when it was 0 |
| Strings.String.Kind | include/common/string.hpp:444-447 | `category()` reads the last byte |
| Strings.String.Size | include/common/string.hpp:189-204 | Small reads the last byte, the others `m_size` |
| Strings.String.Contents | include/common/string.hpp:206-238 | the `size()` characters at `data()` |
| Strings.String.EqualsOperator | include/common/string.hpp:179-185 | on strings: true iff the sizes agree and the first `size() % 65536` bytes differ |
| Strings.String.Default | include/common/string.hpp:121 | a default string has size 23 and 23 NULs |
| Strings.String.Empty | include/common/string.hpp:121 | corrected: size 0, no characters, a NUL at `data()[0]` |
| Strings.String.SetSmallSize | include/common/string.hpp:406-410 | the last byte holds `23 - n` (Small), a NUL at `n`, other bytes kept |
| Strings.String.SetCapacity | include/common/string.hpp:385-388 | the capacity word is the encoding; a capacity without category bits reads back with its category |
| Strings.String.Assign | include/common/string.hpp:288-322 | category `categorize_size(n)`, `size() == n`, the first `n` characters of `src`, a NUL after them |
| Strings.String.AssignSmall | include/common/string.hpp:293-297 | the text in place and the size in the last byte |
| Strings.String.AssignMedium | include/common/string.hpp:299-307 | a fresh block of `n + 1`, capacity `n`, category Medium |
| Strings.String.AssignLarge | include/common/string.hpp:309-319 | a fresh shared block, capacity `n`, category Large |
| Strings.String.FromCString | include/common/string.hpp:123-131 | the length counted by `char_traits::length`, then `assign` |
| Strings.String.FromBuffer | include/common/string.hpp:133-141 | `assign(src, size)`, also for size 0 |
| Strings.String.Destruct | include/common/string.hpp:324-338 | Small: nothing; Medium: the block freed; Large: the count post-decremented |
| Strings.String.AssignString | include/common/string.hpp:249-268 | Small and Medium sources copied (Medium and Large targets into a fresh block of count 1); a Large source's block shared without a count change |
| Strings.String.AssignMove | include/common/string.hpp:270-282 | the small view or the typical fields exchanged with the source |
| Strings.String.CopyAssign | include/common/string.hpp:165-170 | `destruct()` then the copying `assign`: the old Medium block freed or the old Large count post-decremented; the text copied; a non-Large source gives the category of its size and a fresh block, a Large source shares its block and capacity |
| Lists.Node.constructor | include/common/list.hpp:14-19 | both links null |
| Lists.List.Empty | include/common/list.hpp:208-209 | `empty()` iff `size() == 0` |
| Lists.List.constructor | include/common/list.hpp:74 | an empty chain, size 0 |
| Lists.List.FromItems | include/common/list.hpp:76-87 | the values in order, size the item count |
| Lists.List.FromList | include/common/list.hpp:89-93 | walking to the null `end()` copies every value in order |
| Lists.List.FromMoved | include/common/list.hpp:95-100 | takes the other's chain, size and ends; the source is left empty |
| Lists.List.PushBack | include/common/list.hpp:128-144 | empty list: the node becomes head and tail; otherwise linked after the tail and the head kept; size one higher |
| Lists.List.Find | include/common/list.hpp:146-156 | the first node before `m_end` holding the value, else null |
| Lists.List.FindSkipsTail | include/common/list.hpp:149 | the scan covers every node but the tail |
| Lists.List.FindThroughEnd | include/common/list.hpp:146-156 | corrected: the first node holding the value anywhere, null iff absent |
| Lists.List.Remove | include/common/list.hpp:158-180 | head: its successor becomes the head; tail: `m_end` becomes null; size unchanged; node deleted |
| Lists.FindMissesOnlyElement | include/common/list.hpp:146-156 | `find` of a one-element list's value returns null |
| Lists.RemoveKeepsSize | include/common/list.hpp:158-180 | after removing the head of a two-element list, `size()` is still 2 |
| Algorithms.Min | include/common/algorithm.hpp:11-14 | a lower bound of both arguments and one of them; `rhs` iff `lhs >= rhs` |
| Algorithms.Max | include/common/algorithm.hpp:16-19 | an upper bound of both and one of them; `rhs` iff `lhs <= rhs` |
| Algorithms.Clamp | include/common/algorithm.hpp:21-29 | `min` below the range, `value` inside it, `max` above it |
| Algorithms.ClampInRange | include/common/algorithm.hpp:21-29 | with `min <= max` the result is in range and equals `max(min, min(value, max))` |
| Algorithms.ClampInvertedRange | include/common/algorithm.hpp:21-29 | with `min > max`, the lower test wins |
| Algorithms.Swap | include/common/algorithm.hpp:31-36 | the two values are exchanged |
| Algorithms.Copy | include/common/algorithm.hpp:38-57 | `output[k] = first[k]` for `k < last - first`, the rest untouched, returns `output + (last - first)` |
| Algorithms.CopyN | include/common/algorithm.hpp:59-63 | `copy(input, input + count, output)` |
| Algorithms.XorByte | include/common/algorithm.hpp:75 | xor of a byte changes only the low octet |
| Algorithms.Fnv1aHash | include/common/algorithm.hpp:65-79 | the loop computes multiply-then-xor per byte (FNV-1); empty input gives the offset basis |
| Algorithms.Fnv1aHashIsFnv1 | include/common/algorithm.hpp:72-76 | on "a" the loop gives 0xaf63bd4c8601b7be, not the FNV-1a value 0xaf63dc4c8601ec8c |
| Algorithms.Fnv1aHashFixed | include/common/algorithm.hpp:65-79 | corrected: xor-then-multiply per byte (FNV-1a) |
| Arrays.Array.Empty | include/common/array.hpp:41 | `empty()` iff `N == 0` |
| Arrays.Array.End | include/common/array.hpp:45 | `end() - begin()` is `N` |
| Arrays.Array.Index | include/common/array.hpp:26-27 | `operator[](i)` is element `i` |
| Arrays.Array.At | include/common/array.hpp:29-30 | `at(i)` is `operator[](i)` |
| Arrays.Array.Front | include/common/array.hpp:32-36 | `front()` is element 0 |
| Arrays.Array.Back | include/common/array.hpp:32-36 | `back()` is element `N - 1` |
| Arrays.Deduce | include/common/array.hpp:67-68 | `N = 1 + sizeof...(Ts)`, the arguments in order |
| Arrays.MakeArray | include/common/array.hpp:116-120 | `sizeof...(Ts)` elements, the arguments in order |
| Arrays.ToArrayAsWritten | include/common/array.hpp:70-76 | only the first `N - 1` elements are copied; the last keeps `tmp`'s value |
| Arrays.ToArrayDropsLast | include/common/array.hpp:74 | `{1, 2, 3}` gives `{1, 2, 0}` over a zero-filled `tmp` |
| Arrays.ToArray | include/common/array.hpp:70-76 | corrected: all `N` elements copied |
| Arrays.ToArrayKeepsLast | include/common/array.hpp:70-76 | corrected: `{1, 2, 3}` gives `{1, 2, 3}` |
| Tuples.MakeTuple | include/common/tuple.hpp:10-29 | one base per `(index, type)` pair and no other |
| Tuples.GetReturnsArgument | include/common/tuple.hpp:33-43 | `get<I>` (and `std::get<I>`, lines 65-75) returns the `I`-th constructor argument |
| Tuples.TupleSize | include/common/tuple.hpp:53-57 | `tuple_size` is the number of bases |
| Tuples.TupleSizeIsBaseCount | include/common/tuple.hpp:22-26 | there are exactly `sizeof...(Ts)` bases |
| Tuples.BaseKeysCount | include/common/tuple.hpp:22-26 | the first `n` base keys are `n` distinct pairs |
| Tuples.TupleElement | include/common/tuple.hpp:59-63 | `tuple_element<I>` is the `I`-th type |
| Tuples.GetByTypeIsGetByIndex | include/common/tuple.hpp:77-89 | with unique types, `get<T>` equals `get<index of T>`, the argument of type `T` |
| Tuples.StdGetScenario | tests/tests.cpp:37-43 | `get<0>`, `get<1>`, `get<2>` of `{1337, 66.67, true}` give the arguments back |
| Bits.SetNeverClears | include/common/bit.hpp:37-40 | a set flag stays set after any `set` |
| Bits.SetKeepsEveryFlag | include/common/bit.hpp:37-40 | the same for every flag at once |
| Bits.SetThenHas | include/common/bit.hpp:27-40 | after `set(f)` with `f != 0`, `has(f)`; `set` only adds bits |
| Bits.SetIdempotent | include/common/bit.hpp:37-40 | repeating `set(f)` changes nothing |
| Bits.HasEdgeCases | include/common/bit.hpp:27-30 | `has(0)` is false; `has(all bits)` iff some flag is set |
| Bits.BitFlags.constructor | include/common/bit.hpp:51 | `m_flags` holds its initial value |
| Bits.BitFlags.Assign | include/common/bit.hpp:16-20 | `operator=` replaces every flag |
| Bits.BitFlags.Equals | include/common/bit.hpp:22-25 | `==` compares the raw value |
| Bits.BitFlags.Has | include/common/bit.hpp:27-30 | `has(f)` iff `m_flags & f != 0` |
| Bits.BitFlags.HasEnum | include/common/bit.hpp:32-35 | the enum overload agrees with the integer overload |
| Bits.BitFlags.Set | include/common/bit.hpp:37-40 | ors `f` in: no flag cleared, and `has(f)` for `f != 0` |
| Bits.BitFlags.SetEnum | include/common/bit.hpp:42-45 | the enum overload ors in the underlying value |
| Iterators.RandomAccessIsInput | include/common/iterator.hpp:7-12 | random-access tags are input tags; every tag but output is an input tag |
| Iterators.DistanceInput | include/common/iterator.hpp:25-33 | counting increments from `first` to `last` gives `last - first`; 0 for equal iterators |
| Iterators.DistanceRandomAccess | include/common/iterator.hpp:35-39 | `first + d == last`, and `d == 0` iff equal |
| Iterators.Distance | include/common/iterator.hpp:43-47 | dispatch by category; always `last - first` |
| Iterators.DistanceVersionsAgree | include/common/iterator.hpp:25-47 | on a contiguous range both versions give the same count |
| Utility.ToUnderlying | include/common/utility.hpp:21-25 | the enumerator is recovered from the returned integer |
| Utility.ToUnderlyingRoundTrip | include/common/utility.hpp:21-25 | converting an integer to the enum and back gives it back |
| Utility.Exchange | include/common/utility.hpp:33-38 | returns the old value; the object holds the new one |
| Utility.ExchangeBack | include/common/utility.hpp:33-38 | exchanging the returned value back restores the object |
| Utility.PairEquals | include/common/utility.hpp:47-50 | `==` iff both members are equal, which is equality of pairs |
| Functional.Wrapper.constructor | include/common/functional.hpp:79-91 | a live wrapper around the callable at the given storage |
| Functional.Function.constructor | include/common/functional.hpp:23 | a default `Function` converts to false |
| Functional.Function.FromCallable | include/common/functional.hpp:25 | holds the callable inline iff its alignment fits |
| Functional.Function.IsSet | include/common/functional.hpp:40 | `operator bool` iff `m_callable` is non-null |
| Functional.Function.Cleanup | include/common/functional.hpp:44-54 | the wrapper is destroyed; it is freed iff it was not in the inline buffer |
| Functional.Function.Assign | include/common/functional.hpp:56-67 | the old wrapper cleaned up; the new one inline iff alignment at most `alignof(max_align_t)`, else on the heap |
| Functional.Function.Destruct | include/common/functional.hpp:27 | the destructor is `cleanup()` |
| Functional.Function.Call | include/common/functional.hpp:35-38 | the call returns the stored callable's result |
| Functional.ReassignScenario | include/common/functional.hpp:56-67 | reassigning frees an over-aligned heap wrapper and then holds an inline one |
| Functional.ForEach | include/common/functional.hpp:97-101 | the predicate is called on every item in order |
| Functional.FindIf | include/common/functional.hpp:103-112 | the first item satisfying the predicate, or null iff none does |

## Left out

- include/common/thread.hpp, unix/thread.hpp, win32/thread.hpp: OS threads and polling loops are concurrency, outside a sequential model.
- include/common/unix/library.hpp, win32/win32.hpp: `dlopen`, `dlsym` and `FormatMessage` are foreign calls.
- include/common/common.hpp: `assert`, `abort`, compiler intrinsics and float typedefs have no modelled behaviour.
- `Allocator::allocate`/`deallocate`, `MemoryResource`, `PolymorphicAllocator`: raw `::operator new` and virtual forwarding; allocation is a fresh array or object.
- Reference counts are not atomic in the source either; the model is single-threaded.
- Memory.UniquePtr.constructor: models the evident intent; as written `UniquePtr` declares `using base::m_ptr;` but `Ptr` has only `m_object`, so no `UniquePtr<T>` can be instantiated.
- Memory.UniquePtr.Destruct: models the evident intent, for the same reason (`using base::m_ptr;`).
- Memory.UniquePtr.Dispose: models the evident intent, for the same reason (`using base::m_ptr;`).
- Memory.MakeUnique: models the evident intent; it constructs a `UniquePtr`, which cannot be instantiated because of `using base::m_ptr;`.
- Memory.UniquePtr.AssignUnique: models the evident intent, for the same reason (`using base::m_ptr;`). The `assign(other)` it calls is defined in no file; it is taken to copy `other`'s pointer and leave `other` untouched, so both the copy and the move assignment leave two owners of one object (a self-assignment deletes the object and ends null).
- Memory.UniquePtr.AssignPtr: models the evident intent, for the same reason (`using base::m_ptr;`). The `assign` that `UniquePtr::operator=` calls is defined in no file; it is taken to adopt the pointer.
- Memory: an access through a freed counter or object reads its last value instead of being undefined; `live` records the free.
- `Ptr::get`, `operator*`, `operator->` and the conversions are plain reads of `m_object` and have no separate members.
- Variants: `VariadicUnion` members are kept apart; the overlay of union members in one storage is not modelled.
- Variants: the source has no default `Variant` constructor. The default member initialisers are `Variants.Initialised`.
- Variants.TypeCheckingScenario: the test cannot compile as written: it default-constructs a `Variant`, which has no default constructor, and calls a member `holds_alternative<T>()`, while the header declares only the free function; the model starts from an `int` and uses the free function.
- `match` and `Overload`: `Overload` is defined in no file.
- `type_index_for_overload_selection_v`, `index_for_type_v`, `type_for_index_t` and `unique_types` are defined in no file. They are taken as the index lookups of `TypeList`.
- `types.hpp` `get_n_types`, `next_index`, `get_index`, `callable_type`: `get_n_types` returns a suffix, not a prefix, and the others have no use in the core.
- Vectors.Vector.Insert: the `copy` that shifts the tail is not modelled, because its end bound is an integer cast to a pointer.
- Vectors.Vector.Erase: models the evident intent without the shifting `copy`; as written `ql::copy( pos, end() - pos, pos + 1 )` deduces `Input` as both `const T*` and `ptrdiff_t`, so no `copy` matches and `erase(pos)` cannot be instantiated.
- Vectors.Vector.EraseRange: models the evident intent without the shifting `copy`; as written `ql::copy( last, end() - last, first )` has the same conflicting deduction of `Input`, so `erase(first, last)` cannot be instantiated.
- `Vector::emplace` constructs at `pos - 1` after the same shift; it is not modelled.
- `Vector` `operator=(const Vector&)` and `operator=(Vector&&)` test `*this == rhs`, an `operator==` no file defines; the array and `initializer_list` overloads do not test it. None of the four has a separate member.
- The range and count `insert` overloads have no return statement.
- `Vector::at` and `operator[]` are plain index reads with no separate members.
- `Vector` sizes and `List` sizes are unbounded naturals; `size_t` overflow is not modelled there.
- Strings.String.Assign: requires `n < 2^62`, because a capacity with bit 62 or 63 set collides with the category bits.
- Strings: the union's byte aliasing is modelled only through the shared last byte. `offsetof`/`reinterpret_cast` in `SharedData`, and endianness, are left out.
- Strings: the `std::is_constant_evaluated` branch of `categorize_size` is left out; the model is the run-time branch.
- Strings: `String(const_pointer)` with a null pointer calls `assign(nullptr)` and then `strlen(nullptr)`; the model requires a NUL-terminated source.
- `String::max_size`, `find` (declared only in a comment) and the `data()` conversions have no separate members.
- `List` destructor: it deletes `node->previous` of every node, but no operation ever sets `previous`, so it deletes only null and every node leaks; it is not modelled.
- `List::resize` dereferences the null `m_end` of an empty list when growing, and when shrinking follows the never-set `previous` to null and dereferences it; it is not modelled.
- Lists.List.Remove: requires the head or the tail. An interior node's `previous` is null, so the splice dereferences null.
- `List::NodeIterator` is modelled as a node reference.
- Algorithms.Copy: the non-pointer loop branch is not modelled. Every output the core passes is a pointer, which is trivially copyable, so `memcpy` is taken.
- Algorithms.Fnv1aHash: the loop index is an `int` compared with `size_t`; lengths of 2^31 or more are not modelled.
- `ql::hash` forwards to `std::hash` and is left out.
- Array reverse iterators cannot work as written (`m_data[N - 1]` is not an iterator, and `--m_data` decrements an array).
- Arrays: `data()`, `begin()` and `cbegin()` are offset 0 and have no members beyond `Begin`.
- Tuple layout test (tests/tests.cpp:23-35): addresses are not modelled. Float payloads in the tests are integers (66.67 is 6667).
- `std::decay_t` on tuple element types is the identity on type tags.
- Bits: the enum's underlying type is fixed at 32 bits.
- Functional: `ICallable::call` virtual dispatch is a function value. `Args...` is one argument. A copied `Function` shares its pointer into the other object's buffer; copying is not modelled.
- Functional: `alignof(std::max_align_t)` is 16, as on common 64-bit targets.
- Vectors.Vector.Reserve: moves only the `min(m_size, capacity)` slots the old buffer has. As written `uninitialized_move(begin(), end(), ...)` moves all `m_size` slots, and `Vectors.Vector.Grow` (from `push_back`/`emplace_back`) and `Vectors.Vector.Assign` raise `m_size` first, so the source reads one slot past a full buffer on growth and `size - capacity` slots past it in `assign(items, size)`; that out-of-bounds read is not modelled.
- Strings.String.CopyAssign: a self-assignment `s = s` of a Medium string (or of a Large one whose count was 0) copies from the block `destruct()` has just freed; the model reads the freed block's last contents, so it returns the old text where the source has a use after free.
- Vectors.TrivialZeroesPrefix: a slot that the `memset` byte boundary cuts through gets only its leading bytes zeroed in the source; the model keeps that slot whole (the same holds for `Vectors.DefaultConstructRange`, `Vectors.Vector.WithSize` and `Vectors.Vector.Resize`), since a partly zeroed object has no value of `T`.
- Functional.Function.Assign: the inline path is chosen by alignment alone, as written; the size of the wrapper is not modelled, so a callable larger than `sizeof(std::max_align_t)` that the code places inline (overflowing `m_stackBuffer`) is modelled as if it fitted.
- Functional.Function.FromCallable: the same as `Assign`, which it calls; the buffer size is not modelled.
- Functional.Function.Call: models the evident intent; as written `std::forward( args )` names no template argument and cannot be instantiated.
- Utility.Exchange: models the evident intent; as written `forward( value )` has no deducible template argument, so `exchange` cannot be instantiated.
- Utility.ExchangeBack: rests on `Utility.Exchange`, so it also models the evident intent.
- Iterators.Distance: models the evident dispatch; as written `iterator_traits` yields the `std` category tags while the overloads take the `ql` tags, so no overload matches.
- Iterators.DistanceVersionsAgree: rests on `Iterators.Distance`, so it also models the evident intent.
- Lists.List.FromItems: models the evident intent; as written `type& item` binds to the `const` elements of the array or `initializer_list` and does not compile.
- Vectors.DefaultConstructRange: `ql::IteratorTraits`, which `default_construct` uses for the element type, is defined in no file; the element type is taken to be the slot type.
- Functional.ForEach: the predicate's effect on items is modelled as the sequence of its results. `range` is taken by value, so writes to items would not reach the caller.
- Functional.FindIf: the returned pointer is a position. With `range` taken by value it points into the callee's copy.

## Findings

| source | as written | input that shows it | evidently intended | confidence | as-written member | corrected member |
|---|---|---|---|---|---|---|
| include/common/algorithm.hpp:72-76 | `fnv1a_hash` multiplies by the prime and then xors the byte, which is FNV-1 | the one-byte input "a" (0x61) hashes to 0xaf63bd4c8601b7be | FNV-1a as in section 2 of draft-eastlake-fnv, xor then multiply, giving 0xaf63dc4c8601ec8c for "a" | not executed | Algorithms.Fnv1aHashIsFnv1 | Algorithms.Fnv1aHashFixed |
| include/common/string.hpp:179-185 | `operator==` returns the `int` of `compare` converted to `bool`, true when the texts differ; the count goes through the `uint16_t` `size_type` of `char_traits` (line 28), so only `size() % 65536` bytes are compared | `String("a") == String("a")` is false; two different 65536-byte strings compare as not unequal | equal sizes and `compare(...) == 0` over all `size()` bytes | not executed | Strings.SelfInequality | Strings.Equals |
| include/common/string.hpp:121 | `String()` zero-fills the union, so the remaining-capacity byte is 0 and `size()` is 23 | a default-constructed `String` reports size 23 | an empty string, remaining capacity 23 | not executed | Strings.String.Default | Strings.String.Empty |
| include/common/list.hpp:149 | `find` stops at `m_end`, the last node, so the tail is never examined | `find(7)` on the list `{7}` returns null | scan to the null `end()` | not executed | Lists.FindMissesOnlyElement | Lists.List.FindThroughEnd |
| include/common/array.hpp:74 | `to_array` copies `[&array[0], &array[N - 1])`, only `N - 1` elements | `to_array({1, 2, 3})` leaves the last element default-initialised | copy all `N` elements | not executed | Arrays.ToArrayDropsLast | Arrays.ToArray |
| include/common/memory.hpp:224-240 | `operator=` runs `destruct()`, then `assign` does nothing for an invalid other, so the handle keeps its object and the counter it has just decremented | two owners (use count 2); `p = SharedPtr{}` leaves `p` valid at count 1, and `p`'s destructor deletes the object the other owner still holds | release the old reference once and leave `p` empty | not executed | Memory.EmptyAssignmentFreesShared | Memory.SharedPtr.CopyAssignFixed |
| include/common/memory.hpp:25 | `default_construct` clears `last - first` bytes, one byte per element | `Vector<int>(4)` zeroes only element 0; elements 1 to 3 stay uninitialised | clear `(last - first) * sizeof(T)` bytes | not executed | Vectors.IntRangeZeroesOneSlot | Vectors.DefaultConstructRangeFixed |
