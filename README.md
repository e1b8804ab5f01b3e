# gpu-bulwark, modelled in Dafny

gpu-bulwark is a Rust crate (with a small C++ companion) that wraps OpenGL so
that the compiler catches mistakes in GLSL interfaces: the vertex attributes
a program reads, the outputs of one shader stage feeding the inputs of the
next, the uniforms a program declares and the definitions that fill them,
and the order in which a program's stages may be attached. Most of that
bookkeeping lives in the types, as heterogeneous lists and trait bounds; the
rest is a thin layer of resource wrappers over driver calls.

This project restates that core in Dafny and proves what it promises.

- **Heterogeneous lists** (`hlist.dfy`, `indexed.dfy`): the left- and
  right-folded cons lists of `src/hlist`, as two generic datatypes, each
  read as a sequence. Length, append, prepend, concatenate, invert, reverse,
  first, last and selection by index are proved against that reading.
- **GLSL types and interfaces** (`glsl.dfy`, `location.dfy`, `layout.dfy`,
  `program_layout.dfy`, `ext.dfy`, `valid.dfy`, `compatible.dfy`,
  `interface.dfy`, `all_diff.dfy`): component sizes, location counts after
  section 4.4.1 of The OpenGL Shading Language 4.60, the validity and
  compatibility relations, the adjacent-location overlap check, the mapping
  of outputs to matching inputs, and the array-based all-different check.
- **Uniforms, shaders and program builders** (`gl_uniform.dfy`,
  `object_uniform.dfy`, `shader.dfy`, `info_log.dfy`, `utf8.dfy`,
  `main.dfy`, `stage.dfy`, `program.dfy`, `gl_builder.dfy`,
  `object_builder.dfy`, `object_program.dfy`, `object_shader.dfy`): every
  builder call becomes a function whose precondition is its impl block's
  bounds. The type-level state (target, parameter lists, pending
  declarations) becomes fields of a record. `build` becomes a method that
  issues the driver calls in pipeline order.
- **Resources and the driver** (`driver.dfy`, `allocator.dfy`, `object.dfy`,
  `gl_error.dfy`, `buffer.dfy`, `vertex_array.dfy`, `cpp_wrapper.dfy`):
  - The driver is a state machine over live names, bindings, attribute
    pointers, uploads and attachments.
  - A `Gl` object records the calls issued; its state is the run of that
    trace from the initial state.
  - Wrapper methods state exactly which state-changing calls they issue,
    and lemmas state what those calls do to the state. Query calls are not
    recorded.
  - Driver answers (info-log lengths, link and compile status, the error
    queue) are parameters.
- **Tables and examples** (`types.dfy`, `texture_target.dfy`,
  `texture_image.dfy`, `hello_textures.dfy`, `type_state.dfy`): `u31`, the
  primitive tables, texture target dimensions and tokens, the sized-format
  table of the OpenGL 4.6 Core Profile (Tables 8.11 and 8.12), the
  generated texture of the `hello_textures` example, and the type-state
  login session of the thesis listing.

Panics become `None`/`Err`/`Panicked` outcomes. Compile-time assertions
become preconditions or predicates that are false. `Drop` is an explicit
method.

The crate has two parallel trees, `src/gl` and `src/object`, with
near-identical code. `src/gl/error.rs` and `src/error.rs` are identical, and
so is the `u31` of `src/types.rs`, `src/gl/types.rs` and `src/gl/primitive.rs`.
Each such pair or triple is modelled once. Its row cites the copy in
`src/gl`, or the first file.

Behaviour of the code that the model keeps as written:
- **Handle ownership.**
  - In Rust, the derived `Clone` of `ObjectBase` and `Object` duplicates
    the handle, and each copy deletes it when dropped (`Object.DoubleFree`).
  - The C++ `Buffer` and `VertexArray` have no destructor, so their
    handles are never deleted.
- **Texture storage.** `Texture::CreateWithStorage2D` creates a texture
  without allocating any storage. Storage comes only from a later
  `Storage2D`, and nothing checks `SubImage2D` against it.
- **Allocation and activation.** `CHECK_GL_ERROR` is switched off, so
  nothing checks whether an allocation succeeded. `Use` accepts any
  program, including one that never linked.

## Model

| member | source | states |
|---|---|---|
| HList.LLength | src/hlist/mod.rs:16-31 | the left-folded `LENGTH` is the number of elements: 0 for `()`, one more per pair |
| HList.LAppend | src/hlist/mod.rs:49-71 | `append` puts the element after all others, adding one to the length |
| HList.LPrepend | src/hlist/mod.rs:77-100 | `prepend` puts the element before all others and keeps the order of the rest |
| HList.LConcat | src/hlist/mod.rs:111-170 | `concatenate` (all five impls) gives self's elements followed by other's |
| HList.LFirst | src/hlist/mod.rs:175-207 | `first` is the frontmost element |
| HList.LLast | src/hlist/mod.rs:213-230 | `last` is the element of the outermost pair, the hindmost one |
| HList.LInvert | src/hlist/mod.rs:236-262 | `invert` gives the same elements in the same order, right-folded |
| HList.LReverse | src/hlist/mod.rs:267-293 | `reverse` gives the elements in reverse order |
| HList.LFind | src/hlist/mod.rs:298-329 | `Find` index k is the element k places from the back (`Zero` is the last) |
| HList.RLength | src/hlist/mod.rs:339-353 | the right-folded `LENGTH` is the number of elements |
| HList.RAppend | src/hlist/mod.rs:372-395 | rhlist `append`, through `(H, T.append(E))`, puts the element last |
| HList.RPrepend | src/hlist/mod.rs:401-423 | rhlist `prepend` puts the element first, adding one to the length |
| HList.RFirst | src/hlist/mod.rs:428-445 | `first` is the head of the outermost pair |
| HList.RLast | src/hlist/mod.rs:451-486 | `last` is the hindmost element, found by recursing into the tail |
| HList.RInvert | src/hlist/mod.rs:491-517 | rhlist `invert` gives the same elements in the same order, left-folded |
| HList.RReverse | src/hlist/mod.rs:523-549 | rhlist `reverse` gives the elements in reverse order |
| HList.RSelect | src/hlist/mod.rs:555-586 | `Selector` index k is the k-th element from the front |
| HList.LElemsInjective | src/hlist/mod.rs:16-31 | a left-folded list is determined by its element sequence, so the element laws above pin the lists down |
| HList.RElemsInjective | src/hlist/mod.rs:339-353 | a right-folded list is determined by its element sequence |
| HList.ConcatIdentity | src/hlist/mod.rs:117-146 | `()` is a left and a right identity of `concatenate` |
| HList.AppendLast | src/hlist/mod.rs:56-71 | `last` after `append` returns the appended element, and the list before it is the old one |
| HList.PrependFirst | src/hlist/mod.rs:84-100 | `first` after `prepend` returns the prepended element, and the length grows by one |
| HList.LReverseInvolution | src/hlist/mod.rs:273-293 | lhlist `reverse` keeps the length, and reversing twice restores the list |
| HList.RReverseInvolution | src/hlist/mod.rs:529-549 | rhlist `reverse` keeps the length, and reversing twice restores the list |
| HList.InvertRoundTrip | src/hlist/mod.rs:243-262 | inverting left then right (or right then left) is the identity, and keeps the length |
| HList.InvertReverse | src/hlist/mod.rs:243-293 | inverting a reversed lhlist equals reversing the inverted list |
| HList.FindSelect | src/hlist/mod.rs:307-329 | `Find` index 0 is `last`, the highest `Find` index is `first`, and `Find` index k is `Selector` index len-1-k of the inverted list |
| Indexed.New | src/hlist/indexed.rs:10-15 | `Indexed::new` stores the value unchanged under its tag |
| Indexed.LNew | src/hlist/indexed.rs:40-47 | lhlist `Empty::new` is the one-element list `((), Indexed<0, E>)` |
| Indexed.LAppendIndexedEmpty | src/hlist/indexed.rs:49-51 | `appned_indexed` on `()` is the same as `new`: the value last, tagged 0 |
| Indexed.LAppendIndexed | src/hlist/indexed.rs:64-75 | lhlist `append_indexed` puts the tagged value last and leaves the list before it untouched |
| Indexed.RNew | src/hlist/indexed.rs:133-140 | rhlist `Empty::new` is the one-element list `(Indexed<0, E>, ())` |
| Indexed.RPrependIndexedEmpty | src/hlist/indexed.rs:142-144 | `prepend_indexed` on `()` is the same as `new` |
| Indexed.RAppendIndexed | src/hlist/indexed.rs:156-166 | rhlist `append_indexed`, despite its name, puts the tagged value first |
| Indexed.RAppendIndexedIsPrepend | src/hlist/indexed.rs:156-166 | rhlist `append_indexed` is `prepend`, and differs from `append` whenever the head is not the new value |
| Indexed.NewInvert | src/hlist/indexed.rs:40-47 | the left and right one-element lists are each other's inversion |
| Glsl.Primitive | src/glsl/glsl.rs:57-83 | the `FFI::Primitive` of every type is one of the four scalar types |
| Glsl.TypeExtents | src/glsl/glsl.rs:24-28 | vectors have 2 to 4 non-bool components; matrices have 2 to 4 rows and columns over f32 or f64 only |
| Glsl.FfiSizeIsComponents | src/glsl/glsl.rs:57-83 | `FFI::SIZE` is the component count: 1 per scalar, N per vector, R×C per matrix, N times the element's per array |
| Glsl.FfiSizePositive | src/glsl/glsl.rs:155-158 | `FFI::SIZE` is 0 exactly when the type holds an array of length 0 |
| Glsl.SubtypeDepthIsArrayDepth | src/glsl/glsl.rs:30-54 | the subtype of a type nests one `Array` per level of array nesting, and only arrays have an array subtype |
| Glsl.ArrayOfType | src/glsl/glsl.rs:155-158 | `Array<T, N>` is a type of size N × T's size, with T's primitive and subtype `Array<T's subtype>` |
| Location.VectorLocations | src/glsl/location.rs:31-34 | vector location counts: 1 for f32, i32 and u32 at every dimension; for f64, 1 at dimension 2, 2 at 3 and 4, no value otherwise |
| Location.NUsedLocations | src/glsl/location.rs:26-61 | `N_USED_LOCATIONS` of every type with an impl is the standard count: 1 per scalar, the vector table, N × the element's for arrays, R × the column vector's for matrices |
| Location.LocationIsType | src/glsl/location.rs:37-61 | every type with a location impl is a well-formed GLSL type |
| Location.LocationsPositive | src/glsl/location.rs:26-61 | every type with a location impl uses at least one location (array lengths are positive) |
| Location.MatrixExamples | src/glsl/location.rs:54-61 | `Mat<f64, 4, 4>` uses 8 locations, `Mat<f32, 4, 4>` 4 and `Mat<f64, 3, 2>` 3 |
| Layout.LocationCount | src/glsl/layout.rs:12-96 | `LOCATION_COUNT` is 0 exactly for types holding no component (`Unimplemented`, empty arrays) |
| Layout.LayoutIsStandard | src/glsl/layout.rs:16-96 | every `LOCATION_COUNT` impl equals the standard location count, the dvec match included |
| Layout.TypeHasLayout | src/glsl/layout.rs:16-96 | every well-formed GLSL type has a `Layout` impl, and its count is the standard one |
| Layout.LocationAgreesWithLayout | src/glsl/layout.rs:16-96 | `LOCATION_COUNT` agrees with location.rs's `N_USED_LOCATIONS` on every type both define |
| Layout.LayoutOnly | src/glsl/layout.rs:12-66 | bool and bvec have a layout but no location impl, and arrays of `Unimplemented` count 0 |
| Layout.DoubleExamples | src/glsl/layout.rs:69-96 | dvec2 uses 1 location, dvec3 and dvec4 2, dmat4 8, and a 3×2 int matrix 3 |
| ProgramLayout.OldLocationCount | src/object/program/layout.rs:11-78 | the older `LOCATION_COUNT` impls give the standard count wherever they exist |
| ProgramLayout.OldLayoutShape | src/object/program/layout.rs:11-68 | the older impls cover only vectors and arrays of those |
| ProgramLayout.NoOldMatrix | src/object/program/layout.rs:71-78 | the `Mat` impl requires `T: Layout` and no scalar has an impl in this table, so no matrix and no array of matrices gets a count |
| ProgramLayout.OldAgreesWithLayout | src/object/program/layout.rs:11-78 | the older counts agree with src/glsl/layout.rs on every type both define |
| Valid.VecDimIsVecSize | src/glsl/valid.rs:44-48 | `VecDim` holds exactly for 2, 3 and 4, the same dimensions as `VecSize` |
| Valid.ForVectorExactly | src/glsl/valid.rs:71-78 | T is valid for a vector of DIM iff it is a valid scalar and DIM is 2 to 4; every scalar type but bool is a valid scalar |
| Valid.ForMatrixComponents | src/glsl/valid.rs:80-90 | only f32 and f64 are valid matrix components, for every legal R and C, and then the column vector and matrix are types |
| Valid.ForSamplerScalar | src/glsl/valid.rs:96-100 | only f32, i32 and u32 are valid sampler outputs |
| Ext.ElemType | src/ext.rs:7-10 | the element `Type` of an `Array` is itself an `Array` |
| Ext.Base | src/ext.rs:12-30 | the innermost element of a nested array is one of the four scalars |
| Ext.SizeIsProduct | src/ext.rs:7-30 | `SIZE` of a nested array is the product of its extents; 1 for a scalar |
| Ext.ElemTypeReachesBase | src/ext.rs:7-30 | `Type` goes down one level per application: applied once per extent it reaches the base scalar, and after fewer applications it is still an array |
| Ext.MatrixArraySize | src/ext.rs:7-10 | `[[S; C]; R]` has size R×C, which equals the FFI size of `Mat<S, R, C>` |
| Compatible.LayoutMeasures | src/glsl/compatible.rs:17-22 | a GLSL type's `Layout` holds exactly `FFI::SIZE` scalars, all of the type's primitive |
| Compatible.CompatibleLayout | src/glsl/compatible.rs:17-22 | every compatible pair has a Rust side that implements `FFI` and equal layouts: equal element count and the same scalar primitive |
| Compatible.CompatibleIffSameLayout | src/glsl/compatible.rs:17-22 | a Rust type is compatible with a GLSL type exactly when both are valid `FFI` types with the same layout, so the impls cover every matching pair and nothing else |
| Compatible.CompatibleIsType | src/glsl/compatible.rs:17-22 | the GLSL side of every compatible pair is a well-formed type |
| Compatible.TableEntries | src/glsl/compatible.rs:46-89 | `[S; N]` matches the N-vector of S for every non-bool scalar; `[[S; C]; R]` matches `Mat<S, R, C>` exactly for f32 and f64; a length mismatch never matches |
| Compatible.RefRuleAdmitsNothing | src/glsl/compatible.rs:154-168 | no reference implements `ffi::FFI`, so the `&GL` impl relates no pair; `&f32` is not compatible with `float[3]` |
| Compatible.CompatibleListIff | src/glsl/compatible.rs:189-200 | an attribute list is compatible with an input list iff they have equal length and each attribute feeds the input at its position: same index, same layout and compatible type |
| Compatible.FedInputsValid | src/glsl/compatible.rs:191-200 | inputs fed by a compatible list at indices leaving room for each input's locations form a valid binding list |
| Types.NewU31 | src/types.rs:14-20 | `u31::new` panics iff the value is negative |
| Types.GetNew | src/types.rs:8-24 | `get(new(x)) == x` for x ≥ 0; the default holds 0 |
| Types.SizeOf | src/types.rs:59-82 | each primitive is 1, 2, 4 or 8 bytes wide |
| Types.OfScalar | src/glsl/glsl.rs:45 | the four GLSL scalar types are the primitives f32, f64, i32 and u32 |
| Types.GlTypeInjective | src/types.rs:55-82 | each of the eight primitives has its own `GL_TYPE` token, between BYTE and DOUBLE |
| Types.KindTable | src/gl/types.rs:58-68 | the Integer kind is exactly the six integer types, the Float kind fixed16, float16, f32 and f64, and all ten `ID`s differ |
| Interface.SlotCount | src/glsl/variable.rs:134-147 | a type meeting the pair check's bound is a well-formed type, and its count is the standard location count in either table |
| Interface.CheckPair | src/glsl/variable.rs:134-147 | `are_locations_valid` passes iff PL + count(PT) ≤ CL, and its ordering assertion fails only where the overlap assertion would fail too |
| Interface.MatchingInput | src/glsl/variable.rs:116-123 | `matching_input` is an `In` variable at the same location with the same type |
| Interface.MatchingInputs | src/glsl/variable.rs:163-188 | `matching_inputs` keeps the length and order, and turns each output into the input at its location with its type |
| Interface.Declare | src/glsl/variable.rs:302-340 | `Glsl!` / `Bindings!` build the left-folded list of the declarations in declaration order |
| Interface.DeclareValidated | src/glsl/variable.rs:343-390 | `glsl!` / `bindings!` give the declared list exactly when it passes the `ConstFnValid` chain, and nothing otherwise |
| Interface.SingletonValid | src/glsl/variable.rs:125-132 | a one-element list is always valid |
| Interface.AppendValid | src/glsl/variable.rs:149-161 | a list of two or more is valid iff its prefix is valid and its last adjacent pair passes |
| Interface.ConstFnValidIffAdjacent | src/glsl/variable.rs:125-161 | the chain is valid iff every adjacent pair (and only adjacent pairs) passes the check |
| Interface.AdjacentDisjointAt | src/glsl/variable.rs:134-161 | in a valid list each variable's locations end at or before the start of every later variable |
| Interface.ValidListLayout | src/glsl/variable.rs:134-161 | in an accepted list all location ranges [L, L + count) are pairwise disjoint, and locations strictly increase past any variable that uses a location |
| Interface.StandardLocationsPositive | src/glsl/location.rs:26-61 | a type with no empty array uses at least one location |
| Interface.ValidSameStorage | src/glsl/variable.rs:149-151 | every variable of a list of two or more has the storage qualifier of the last one |
| Interface.MatchingInputsValid | src/glsl/variable.rs:163-188 | the inputs matching a valid output list are a valid list again |
| Interface.RejectsReuse | src/glsl/variable.rs:143-146 | declaring two variables at the same location is rejected ("locations overlap") |
| AllDiff.AsI64 | notes/const-all-diffrernt.rs:32 | `location as _` into an `i64` lands in the 64-bit signed range and keeps every location below 2^63 unchanged |
| AllDiff.AllDiffSpec | notes/const-all-diffrernt.rs:24-40 | a successful `all_diff` fills exactly N slots |
| AllDiff.AllDiff | notes/const-all-diffrernt.rs:24-40 | the copying loop with the guard corrected to `index >= N` computes the reference result: a "buffer too small" panic, an "overlapping" panic on the first earlier slot equal to the location, or the copied prefix, the new location and -1 padding |
| AllDiff.AllDiffAsWritten | notes/const-all-diffrernt.rs:24-40 | the loop exactly as written computes the same outcomes, except that index N passes the guard and the final write falls outside the buffer |
| AllDiff.AsWrittenGuardMissesN | notes/const-all-diffrernt.rs:25-38 | with index N the guard `index > N` does not fire and the write at index N goes out of bounds, while the corrected guard reports the small buffer |
| AllDiff.Index | notes/const-all-diffrernt.rs:11-22 | `INDEX` is the position of the last location: the list length minus one |
| AllDiff.Array | notes/const-all-diffrernt.rs:11-22 | `ARRAY` of a list, built by folding `all_diff` over its locations, has N slots when it exists |
| AllDiff.ArrayAcceptsDistinct | notes/const-all-diffrernt.rs:11-40 | `ARRAY` evaluates iff the locations fit the buffer and are pairwise distinct as `i64`, and it then holds the locations in order followed by -1 padding |
| AllDiff.Locations | notes/const-all-diffrernt.rs:42-52 | `locations!` builds the left-folded list of its literals in order |
| AllDiff.AcceptsLiterals | notes/const-all-diffrernt.rs:54-56 | `assert_all_different` accepts a short list of literals iff they are pairwise different |
| AllDiff.TestValid1 | notes/const-all-diffrernt.rs:69 | `locations!(1, 2, 3)` is accepted |
| AllDiff.TestValid2 | notes/const-all-diffrernt.rs:72 | `locations!(3, 2, 1)` is accepted |
| AllDiff.TestValid3 | notes/const-all-diffrernt.rs:75 | `locations!(1, 3, 2)` is accepted |
| AllDiff.TestInvalid1 | notes/const-all-diffrernt.rs:78 | `locations!(1, 1)` is rejected |
| Driver.Gl.Issue | src/gl/object.rs:21-26 | issuing a driver call appends it to the trace and moves the driver state by exactly that call's effect |
| Driver.Gl.CreateInto | src/gl/buffer/mod.rs:79-83 | one `glCreate*(n, names)` call writes n consecutive fresh names into the slots, each new to the driver and live afterwards |
| Driver.Gl.CreateOne | src/gl/shader/mod.rs:54-61 | `glCreateShader` / `glCreateProgram` returns one fresh name that is live afterwards |
| Driver.StepKeepsConsistent | src/gl/object.rs:56-60 | no driver call makes a live name that was never handed out |
| Driver.RunKeepsConsistent | src/gl/object.rs:56-60 | every sequence of calls keeps every live handle named between 1 and the next name to hand out |
| Driver.UnbindClears | src/gl/object.rs:21-26 | `unbind`, which binds 0, leaves the point unbound whatever was bound by `bind(name)` |
| Allocator.EachCreate | src/gl/shader/mod.rs:54-61 | the per-slot allocators make one create call of one object per slot |
| Allocator.EachDelete | src/gl/shader/mod.rs:63-70 | the per-slot free makes one delete call per name, in order |
| Allocator.EachCreateIsBatch | src/gl/shader/mod.rs:54-61 | one create per slot has exactly the effect of a batch create of all the slots |
| Allocator.DeletedSnoc | src/gl/shader/mod.rs:63-70 | the handles deleted by a name list extended by one name are the old ones plus that name's handle |
| Allocator.SingletonDeleted | src/gl/object.rs:85-89 | deleting `[name]` removes exactly that handle |
| Allocator.StepDeleteSnoc | src/gl/shader/mod.rs:63-70 | two deletes in a row equal one delete of both name lists |
| Allocator.EachDeleteIsBatch | src/gl/shader/mod.rs:63-70 | one delete per name has exactly the effect of one delete of all the names |
| Allocator.AllocateEach | src/gl/shader/mod.rs:54-61 | the allocation loop issues one create per slot and writes consecutive fresh names into the slots |
| Allocator.FreeEach | src/gl/shader/mod.rs:63-70 | the free loop issues one delete per name, in order |
| Object.Free | src/gl/buffer/mod.rs:86-90 | a batch free is one delete call for all the names, logged in order |
| Object.BindGuard.constructor | src/gl/object.rs:8-13 | `Bind::new` binds the name at the binder's point |
| Object.BindGuard.Drop | src/gl/object.rs:15-25 | dropping the guard binds 0 at its point |
| Object.ObjectBase.Default | src/gl/object.rs:74-83 | `default` allocates exactly one fresh name and keeps it |
| Object.ObjectBase.Drop | src/gl/object.rs:85-89 | dropping frees exactly `[name]`, which is no longer live |
| Object.ObjectBase.Bind | src/gl/object.rs:91-98 | `bind()` returns a guard that bound the object's own name |
| Object.ObjectBase.Clone | src/gl/object.rs:67-72 | the derived `Clone` copies the name, so two owners share it |
| Object.ObjectBase.Copy | src/gl/object.rs:67-72 | a copy holds the given kind and name |
| Object.DoubleFree | src/gl/object.rs:67-89 | dropping a clone and its original deletes the same handle twice |
| Object.GuardLifetime | src/gl/object.rs:8-19 | a guard's life leaves its point unbound and every other point as it was |
| GlError.New | src/gl/error.rs:31-43 | `Error::new` decodes exactly the eight codes INVALID_ENUM through CONTEXT_LOST (0x0500-0x0507), each to the variant of that code, and panics on any other |
| GlError.NewInvertsCode | src/gl/error.rs:31-43 | decoding inverts the variant's code, distinct variants have distinct codes, and none is NO_ERROR |
| GlError.PollQueue | src/gl/error.rs:45-55 | `poll_queue` drains `GetError` until NO_ERROR and returns the decoded reference result |
| GlError.DrainEmpty | src/gl/error.rs:47-51 | the result is empty iff the first answer is NO_ERROR |
| GlError.DrainReadsInOrder | src/gl/error.rs:45-55 | a drained queue holds the decoded answers in order, and stops at NO_ERROR or the end of the answers |
| GlError.DrainAcceptsSupported | src/gl/error.rs:45-55 | answers that are supported codes up to a NO_ERROR drain without panic to exactly that many errors |
| Buffer.NextLength | src/gl/buffer/mod.rs:153-168 | an upload panics iff the buffer already has a nonzero length different from the new data's, and otherwise the new length is the data's length |
| Buffer.NoReallocation | src/gl/buffer/mod.rs:153-168 | a fresh buffer takes any length, the same length can be uploaded again, an empty upload keeps the buffer open to any length, and a different nonzero length is refused |
| Buffer.DataEffect | src/gl/buffer/mod.rs:156-169 | an upload records the buffer's own name, the byte count and the usage, and leaves its target unbound and every other point as it was |
| Buffer.GlBuffer.Create | src/gl/buffer/mod.rs:126-146 | `create` allocates one fresh buffer name and starts at length 0 |
| Buffer.GlBuffer.Data | src/gl/buffer/mod.rs:148-170 | `data` succeeds exactly when the no-reallocation rule allows, then issues bind, `BufferData` of `size_of::<GL>() * len` bytes, unbind, and sets the length; otherwise it panics before any call |
| Buffer.GlBuffer.Map | src/gl/buffer/mod.rs:176-208 | `map` binds, maps with READ_ONLY, unbinds, and gives a view of `len()` elements |
| Buffer.GlBuffer.MapMut | src/gl/buffer/mod.rs:180-182 | `map_mut` binds, maps with READ_WRITE, unbinds, and gives a view of `len()` elements |
| Buffer.GlBuffer.Len | src/gl/buffer/mod.rs:172-174 | `len` is the element count stored by the last successful `data` call, 0 for a new buffer |
| Buffer.Mapped.constructor | src/gl/buffer/mod.rs:196-252 | a view holds its buffer, its access and the buffer's length, after bind, map and unbind |
| Buffer.Mapped.Drop | src/gl/buffer/mod.rs:211-266 | dropping a view binds the buffer, unmaps it and unbinds |
| Buffer.ByteSizeOfArray | src/object/buffer/mod.rs:119-123 | the size of an array of scalars is its scalar count times the scalar's size |
| Buffer.ObjectBuffer.Create | src/object/buffer/mod.rs:95-117 | `create` allocates one fresh buffer name and starts at length 0 |
| Buffer.ObjectBuffer.Bind | src/object/buffer/mod.rs:147-152 | `bind` binds the buffer's name at its target |
| Buffer.ObjectBuffer.Unbind | src/object/buffer/mod.rs:154-159 | `unbind` binds 0 at the target |
| Buffer.ObjectBuffer.DataAsWritten | src/object/buffer/mod.rs:119-139 | `data` as written uploads `size_of::<GLSL::Primitive>() * len` bytes between a bind and an unbind and sets the length |
| Buffer.ObjectBuffer.Data | src/object/buffer/mod.rs:119-139 | `data` with the byte count of the slice passed, `size_of::<GL>() * len`, otherwise the same calls |
| Buffer.UploadCoversData | src/object/buffer/mod.rs:119-131 | for compatible types, the slice's bytes are the component size times the format's component count times the length |
| Buffer.AsWrittenUndersizes | src/object/buffer/mod.rs:131 | for `[f32; 3]` data in a `vec3` buffer the upload as written covers 4 bytes per element where the slice has 12 |
| VertexArray.AttachSemantics | src/gl/vertex_array.rs:44-56 | the semantic `attach` appends the new attribute after the earlier ones and takes the buffer's length as the vertex count |
| VertexArray.DeclareEffect | src/gl/vertex_array.rs:102-115 | `VertexAttribPointer` plus `EnableVertexAttribArray` record, for the bound vertex array and the index, the bound ARRAY_BUFFER with the attribute's size and type, not normalized, stride 0 and offset 0, and enable it |
| VertexArray.UnbindBoth | src/gl/vertex_array.rs:116-117 | unbinding the vertex array and ARRAY_BUFFER, in either order, leaves both unbound and keeps the recorded pointers |
| VertexArray.AttachEffect | src/gl/vertex_array.rs:86-123 | the explicit-bind `attach` records the buffer as the attribute's source, enables it, and leaves both points unbound |
| VertexArray.GuardedAttachLosesBuffer | src/gl/vertex_array/vertex_array.rs:119-135 | as written, the guarded `attach` declares the attribute pointer while ARRAY_BUFFER is 0, so the attribute has no buffer |
| VertexArray.GuardedAttachEffect | src/gl/vertex_array/vertex_array.rs:119-135 | without the stray `buffer.bind();` the guarded `attach` records the buffer like the explicit one |
| VertexArray.BindTemporary | src/gl/vertex_array/vertex_array.rs:121 | a guard made and dropped in one statement binds the name and then 0 |
| VertexArray.Declare | src/gl/vertex_array.rs:102-115 | the `gl::call!` block issues the attribute pointer declaration and then the enable |
| VertexArray.ResourceVertexArray.Create | src/gl/vertex_array.rs:126-130 | `create` allocates one fresh vertex array with no attributes and length 0 |
| VertexArray.ResourceVertexArray.Attach | src/gl/vertex_array.rs:86-123 | `attach` panics (with no call) iff the vertex array has a nonzero length different from the buffer's, and otherwise issues bind, bind, pointer, enable, unbind, unbind and appends the attribute |
| VertexArray.GuardedVertexArray.Create | src/gl/vertex_array/vertex_array.rs:143-147 | `create` allocates one fresh vertex array with no attributes and length 0 |
| VertexArray.GuardedVertexArray.AttachAsWritten | src/gl/vertex_array/vertex_array.rs:104-140 | the guarded `attach` as written: the same length rule, and the calls including the stray temporary bind |
| VertexArray.GuardedVertexArray.Attach | src/gl/vertex_array/vertex_array.rs:104-140 | the guarded `attach` without the stray bind: the same length rule, and the attribute reads from the buffer |
| Shader.Create | src/gl/shader/mod.rs:90-121 | `create` makes an uncompiled shader of the target with no declarations, owning one fresh shader name |
| Shader.DeclareUniform | src/gl/shader/mod.rs:129-139 | `uniform` adds one uniform declaration at the end and keeps the object, the target and the uncompiled state |
| Shader.DeclareUniforms | src/gl/shader/mod.rs:141-152 | `uniforms` concatenates a whole list of declarations at the end and keeps the rest |
| Shader.DeclareUniformsSnoc | src/gl/shader/mod.rs:129-152 | declaring a list at once equals declaring its elements one after another |
| Shader.Lengths | src/gl/shader/mod.rs:157-158 | the lengths passed are the byte length of each source string, in order |
| Shader.LengthsCoverSource | src/gl/shader/mod.rs:156-172 | the lengths add up to the length of the whole source text the driver reads |
| Shader.Source | src/gl/shader/mod.rs:156-172 | `source` issues one `ShaderSource` with the shader's name, the source count and their lengths |
| Shader.CompileVerdict | src/gl/shader/mod.rs:182-233 | compilation succeeds iff the log length is 0 or less, fails otherwise with the log text, and with checked reading panics exactly on a log that is not UTF-8 |
| Shader.ValidLogFails | src/gl/shader/mod.rs:189-193 | any log that is valid UTF-8, warnings included, makes `compile` fail with that log |
| Shader.RetypeToCompiled | src/gl/shader/mod.rs:174-180 | `retype_to_compiled` keeps the object, the target and the declarations and marks the shader compiled |
| Shader.Compile | src/gl/shader/mod.rs:182-194 | `compile` issues `CompileShader` and then returns the compiled shader, the log error or the panic as the verdict says; on failure or panic the shader object is dropped and deleted |
| Shader.FailedCompileFreesShader | src/gl/shader/mod.rs:182-194 | after a failed compile the shader's name is deleted and no longer live |
| InfoLog.Text | src/gl/shader/mod.rs:209-228 | the log is the written buffer cut to the length the driver reports |
| InfoLog.Unchecked | src/gl/shader/internal.rs:158-186 | `info_log` is `None` iff the log length is 0 or less, and otherwise the written bytes cut to the reported length |
| InfoLog.CheckedAgrees | src/gl/shader/mod.rs:205-233 | the checked `info_log` agrees with the unchecked one and adds exactly the panic on text that is not UTF-8 |
| InfoLog.ProgramLog | src/gl/program/mod.rs:226-259 | a program whose LINK_STATUS is TRUE has no log; otherwise the log is read as for shaders |
| InfoLog.Outcome | src/gl/shader/mod.rs:189-193 | `map_or` gives `Ok` exactly when there is no log, and otherwise `Err` carrying the log |
| InfoLog.AnyLogFails | src/gl/shader/internal.rs:142-146 | any nonempty log fails compilation, whatever it says |
| InfoLog.SilentLinkFailureSucceeds | src/gl/program/mod.rs:226-290 | a failed link with log length 0 is reported as a successful link |
| InfoLog.CutLogPanics | src/gl/shader/mod.rs:227-230 | a log cut inside a character makes the checked reading panic, and the whole character is accepted |
| InfoLog.EncodedLogAccepted | src/gl/shader/mod.rs:205-233 | a log of encoded text is returned whole and never panics |
| Utf8.AsciiValid | src/gl/shader/mod.rs:230 | ASCII text is valid UTF-8 |
| Utf8.ValidConcat | src/gl/shader/mod.rs:230 | valid texts concatenate to a valid text |
| Utf8.CharPrefix | src/gl/shader/mod.rs:230 | a character followed by a valid text is valid |
| Utf8.Encode | src/gl/shader/mod.rs:230 | the RFC 3629, section 3 encoding of a scalar value is one to four bytes |
| Utf8.EncodeIsChar | src/gl/shader/mod.rs:230 | every scalar value encodes to exactly one well-formed character |
| Utf8.EncodeAll | src/gl/shader/mod.rs:230 | a text of n scalar values encodes to between n and 4n bytes |
| Utf8.EncodeAllValid | src/gl/shader/mod.rs:230 | every encoded text passes the `from_utf8` check |
| Utf8.TruncationBreaksCharacter | src/gl/shader/mod.rs:227-230 | "é" is C3 A9 and valid, its first byte alone is not |
| Stage.NextTargetTable | src/object/program/attach.rs:12-37 | `NextTarget` has exactly the seven listed pairs; in each the next target is the attached shader's target, later in the pipeline, and never Vertex or Compute |
| Stage.FollowsIsNextTarget | src/object/program/attach.rs:28-37 | the transitions the builder's impl blocks offer are exactly those of the `NextTarget` table |
| Stage.NextTarget | src/object/program/attach.rs:12-37 | the `NextTarget` table: an entry moves the builder to the attached shader's own target, later in the pipeline and not `Compute`; there is no entry exactly when the attached target is `Vertex` or `Compute`, the current one is `Fragment` or `Compute`, or the pair skips or reverses a stage |
| Stage.PathSuffix | src/object/program/builder.rs:217-370 | every transition sequence that ends at Fragment is one of the complete paths from its first target |
| Stage.PipelineShapes | src/object/program/builder.rs:217-370 | a sequence from Vertex to Fragment is allowed by the type-state iff it is one of the four shapes: tessellation as a control/evaluation pair, geometry optional |
| Stage.NewStage | src/object/program/internal.rs:15-25 | `ShaderStage::new` holds the main shader and no libraries |
| Stage.Push | src/object/program/builder.rs:229 | `shared.push` / `libs.push` appends one library and keeps the main shader |
| Stage.Members | src/object/program/mod.rs:191-207 | a stage's shaders are its main shader and then its libraries |
| Stage.Set | src/object/program/builder.rs:49-54 | assigning one target's stage leaves every other target's stage unchanged |
| Stage.PushShared | src/object/program/builder.rs:229 | a `*_shared` call panics iff the target's stage is unset, and otherwise pushes the library onto that stage only |
| Stage.CompletePlanCovers | src/object/program/builder.rs:372-389 | a build past both `expect`s attaches every set stage except compute and a lone tessellation stage |
| Stage.BuildOrder | src/object/program/builder.rs:372-389 | `build` gets past both `expect`s iff vertex and fragment are set, attaches set stages only, in strict pipeline order, vertex first and fragment last, never compute, tessellation only as a pair, and every set stage otherwise |
| Stage.StageCalls | src/object/program/mod.rs:191-207 | `attach` issues one `AttachShader` per member of the stage, main shader first |
| Stage.AttachEach | src/object/program/mod.rs:199-206 | attaching a list issues one `AttachShader` per shader, in order |
| Stage.Pairs | src/object/program/mod.rs:191-207 | each attach pairs the program with one shader |
| Stage.AttachEachRecords | src/object/program/mod.rs:191-207 | attaching shaders one by one records them with the driver in the same order, and creates or deletes nothing |
| Stage.AttachStage | src/object/program/mod.rs:191-207 | the `attach` loop issues exactly the stage's calls |
| Stage.PlanCallsAttachEach | src/object/program/builder.rs:372-389 | attaching a plan attaches its shaders stage by stage, each main shader before its libraries |
| Stage.PlanRecords | src/object/program/builder.rs:372-389 | attaching a plan records all its shaders with the program, in plan order |
| Stage.AttachInOrder | src/object/program/builder.rs:372-389 | the attaching part of `build` issues the plan's calls and reports whether both `expect`s passed |
| Stage.AttachFront | src/object/program/builder.rs:376-384 | the vertex, tessellation and geometry part of `build` issues the calls of those stages |
| Stage.AttachTessellation | src/object/program/builder.rs:378-381 | tessellation control and evaluation are attached only when both are set |
| Stage.AttachGeometry | src/object/program/builder.rs:383-385 | geometry is attached when set |
| Stage.Attach | src/object/program/mod.rs:191-207 | one stage's attach extends the plan's calls by that stage |
| Stage.CreateThenAttach | src/object/program/builder.rs:374-387 | creating the program and attaching a plan leaves the program live with the plan's shaders recorded |
| Stage.EndingEffect | src/object/program/builder.rs:386-388 | the end of `build` attaches nothing more, and the program survives only when both `expect`s passed and the result is kept |
| Stage.BuildEffect | src/object/program/builder.rs:372-389 | a `build` records the plan's shaders with the new program in order, and the program stays live iff the plan was complete and the result kept |
| ShaderMain.New | src/gl/shader/main.rs:28-40 | `Main::new` wraps the compiled shader with the given parameter and uniform lists |
| ShaderMain.IntoMain | src/gl/shader/mod.rs:241-243 | `into_main` starts with no inputs or outputs and the shader's own uniform declarations |
| ShaderMain.Input | src/gl/shader/main.rs:49-55 | `input` adds one input parameter at the end and keeps outputs, uniforms and the shader |
| ShaderMain.Output | src/gl/shader/main.rs:57-63 | `output` adds one output parameter at the end and keeps inputs, uniforms and the shader |
| ShaderMain.Inputs | src/gl/shader/main.rs:65-72 | `inputs` concatenates a whole list onto the inputs and keeps the rest |
| ShaderMain.Outputs | src/gl/shader/main.rs:74-81 | `outputs` concatenates a whole list onto the outputs and keeps the rest |
| ShaderMain.InputsSnoc | src/gl/shader/main.rs:49-72 | adding a list of inputs at once equals adding them one by one |
| ShaderMain.OutputsSnoc | src/gl/shader/main.rs:57-81 | adding a list of outputs at once equals adding them one by one |
| ShaderMain.InputOutputCommute | src/gl/shader/main.rs:49-63 | declaring an input and an output in either order gives the same shader |
| ShaderMain.IntoShared | src/gl/shader/lib.rs:21-30 | `Lib::new` / `Shared::new` / `into_shared` keep the compiled shader and its declarations |
| GlUniform.NewDefinition | src/gl/uniform.rs:141-150 | `Definition::new` keeps the uniform's type and location and the value flattened to exactly the FFI size of the type |
| GlUniform.Define | src/gl/uniform.rs:163-175 | `Definitions::define` appends one definition of the binding's type and location and keeps the earlier ones |
| GlUniform.AsDeclarations | src/gl/uniform.rs:32-47 | `AsDeclarations` has one uniform binding per definition, same type and location, in the same order |
| GlUniform.DefineAsDeclarations | src/gl/uniform.rs:40-47 | defining a uniform adds exactly its binding at the end of the declarations the definitions stand for |
| GlUniform.Declare | src/gl/uniform.rs:114-124 | `declare` adds one binding at the end of mutable declarations |
| GlUniform.IntoImmutable | src/gl/uniform.rs:126-128 | `into_immutable` freezes the same list |
| GlUniform.BindLast | src/gl/uniform.rs:131-139 | `Declarations::bind` on frozen declarations removes the last binding, which must be the one given |
| GlUniform.NewMatcher | src/gl/uniform.rs:186-209 | `set_definitions` / `Matcher::new` keep the definitions and leave nothing to match |
| GlUniform.SetDeclarations | src/gl/uniform.rs:211-220 | `set_declarations` is only available once nothing is pending, keeps the definitions and freezes the new declarations |
| GlUniform.Bind | src/gl/uniform.rs:222-239 | `Matcher::bind` discharges the last pending declaration when a definition of that type and location exists, and keeps the definitions |
| GlUniform.BindAllIff | src/gl/uniform.rs:222-239 | a sequence of binds clears the pending declarations iff it names them from the last to the first and each is defined; the definitions never change |
| ObjectUniform.NewDefinitions | src/object/program/uniform.rs:82-95 | `Definitions::new` holds no values and no locations |
| ObjectUniform.Define | src/object/program/uniform.rs:97-111 | `define` appends one definition of the given Rust type, GLSL type and location, keeps the locations, and keeps every definition compatible |
| ObjectUniform.DefaultUniforms | src/object/program/uniform.rs:164-168 | the default `Uniforms` define nothing and have nothing pending |
| ObjectUniform.NewUniforms | src/object/program/uniform.rs:170-181 | `Uniforms::new` holds the definitions and the pending list |
| ObjectUniform.DefineUniform | src/object/program/uniform.rs:183-199 | `Uniforms::define` is only available with nothing pending; it extends the definitions and leaves nothing pending |
| ObjectUniform.AddUnmatched | src/object/program/uniform.rs:201-207 | `add_unmatched` keeps the definitions and sets the pending list |
| ObjectUniform.MatchUniform | src/object/program/uniform.rs:210-226 | `match_uniform` discharges the head of the pending list when a definition selects it, and keeps the definitions |
| ObjectUniform.MatchAllIff | src/object/program/uniform.rs:210-226 | a sequence of matches clears the pending list iff it names the pending list in order, each selected by a definition; the definitions never change |
| ObjectUniform.DeclarationOrder | src/object/program/uniform.rs:210-226 | a shader's declarations become pending inverted, so the matches that clear them are the declarations in declaration order |
| GlProgram.CreateWithUniforms | src/gl/program/mod.rs:200-209 | a fresh live program object is allocated with one `Create` call, and its declarations are the definitions' `AsDeclarations` |
| GlProgram.LinkSucceedsIff | src/gl/program/mod.rs:226-259 | linking keeps the program exactly when the status is linked or the log is empty; otherwise the error is the log's text |
| GlProgram.Link | src/gl/program/mod.rs:280-290 | `LinkProgram` is issued; the result is `Ok` with the same program exactly when there is no info log, else `Err` with the log, and then the program's name is deleted |
| GlProgram.FailedLinkFreesProgram | src/gl/program/mod.rs:114-124 | after a failed link the driver no longer holds the program's name and has recorded it as freed |
| GlProgram.AddSampler | src/gl/program/mod.rs:376-388 | `Resources::sampler` declares one more sampler, at the end of the list |
| GlProgram.PairedUpSnoc | src/gl/program/mod.rs:353-365 | units still pair up with samplers after one of each is appended exactly when they did before and the new unit serves the new sampler |
| GlProgram.ProvidesIff | src/gl/program/mod.rs:345-365 | the three `ResourceProviders` impls hold exactly when the texture units serve the declared samplers one for one and in order (same target, output kind and binding) |
| GlProgram.AddSamplerNeedsUnit | src/gl/program/mod.rs:345-388 | declaring one more sampler needs exactly one more unit, and that unit must serve the sampler |
| GlBuilder.New | src/gl/program/builder.rs:84-105 | a new builder has no target, no matcher, no stage and empty parameter, definition and declaration lists |
| GlBuilder.Redeclare | src/gl/program/builder.rs:117-134 | the matcher, if there is one, keeps its definitions and takes the shader's declarations as mutable ones |
| GlBuilder.AttachMain | src/gl/program/builder.rs:117-134 | the builder moves to the next target with the new outputs and the shader's declarations pending; inputs, definitions and stages stay |
| GlBuilder.AttachLib | src/gl/program/builder.rs:139-154 | the library's declarations become pending and the target becomes `Vertex`; parameter lists and stages stay |
| GlBuilder.AttachVertexMain | src/gl/program/builder.rs:157-174 | as `attach_main` to `Vertex`, and the inputs are replaced too |
| GlBuilder.ClosesIff | src/gl/program/builder.rs:186-198 | the `uniforms` closure type-checks exactly when it binds the pending declarations from last to first, and each one has a definition |
| GlBuilder.Uniforms | src/gl/program/builder.rs:186-198 | after `uniforms` nothing is pending; position, stages, parameters and definitions stay |
| GlBuilder.VertexMain | src/gl/program/builder.rs:206-214 | `vertex_main` installs a new vertex stage and takes the shader's parameters and declarations |
| GlBuilder.AttachMainStage | src/gl/program/builder.rs:237-262 | a later `*_main` replaces its target's stage with a new one, moves strictly forward in the pipeline, and leaves every other stage alone |
| GlBuilder.AttachShared | src/gl/program/builder.rs:225-378 | a `*_shared` pushes the library onto the current stage and keeps the position, or panics when that stage is unset; no other stage changes |
| GlBuilder.Apply | src/gl/program/builder.rs:107-378 | every builder call keeps the matcher consistent with the definitions and pending declarations |
| GlBuilder.NewAdmitsNothing | src/gl/program/builder.rs:100-105 | no builder method accepts a fresh builder, so every non-empty run of calls from `new` is rejected |
| GlBuilder.ApplyKeepsStagesSet | src/gl/program/builder.rs:218-378 | one call keeps the invariant that both the vertex stage and the current target's stage are set |
| GlBuilder.ApplyAllKeepsStagesSet | src/gl/program/builder.rs:218-378 | any run of calls keeps that invariant |
| GlBuilder.ReachedFragmentIsComplete | src/gl/program/builder.rs:382-405 | a builder that reaches `Fragment` has both the vertex and the fragment stage, so `build`'s stage `expect`s cannot fire |
| GlBuilder.Build | src/gl/program/builder.rs:382-405 | without a matcher `build` panics before issuing anything; otherwise it creates the program, attaches the stages in pipeline order and links, and links successfully exactly when both stages are set and there is no info log; a linked program declares the definitions' declarations |
| GlBuilder.Finish | src/gl/program/builder.rs:398-404 | the end of `build` panics exactly when the fragment stage is missing, and a successful link returns the program unchanged |
| ObjectBuilder.New | src/object/program/builder.rs:170-189 | a new builder is at `Vertex` with no parameters, no uniforms and no stage |
| ObjectBuilder.DefineUniforms | src/object/program/builder.rs:191-198 | `uniforms` installs the definer's definitions with nothing pending, resets the parameters and keeps the stages |
| ObjectBuilder.VertexMain | src/object/program/builder.rs:204-214 | `vertex_main` sets the vertex stage to a new stage of the shader, takes its parameters, keeps the other stages and definitions, and leaves the shader's declarations pending |
| ObjectBuilder.AttachMain | src/object/program/builder.rs:234-262 | a later `*_main` sets its target's stage anew, moves strictly forward, takes the shader's outputs, keeps the inputs and other stages, and leaves the shader's declarations pending |
| ObjectBuilder.AttachShared | src/object/program/builder.rs:224-370 | a `*_shared` pushes the library onto the current stage, or panics exactly when that stage is unset; target, parameters, other stages and definitions stay, and the library's declarations are pending |
| ObjectBuilder.BindUniforms | src/object/program/builder.rs:144-167 | `bind_uniforms` leaves nothing pending, keeps the definitions, and changes nothing else |
| ObjectBuilder.BindAfterMain | src/object/program/builder.rs:144-167 | after a main shader, `bind_uniforms` accepts exactly the matchers that take the shader's declarations in order, each one selected by a definition |
| ObjectBuilder.BindAfterShared | src/object/program/builder.rs:144-167 | the same holds after a library |
| ObjectBuilder.GenericAttach | src/object/program/attach.rs:73-122 | `generic_attach` makes the shader the main of an unset stage or adds it to a set one; other stages stay, and on the vertex stage it needs the stage to be set |
| ObjectBuilder.AttachSharedGeneric | src/object/program/attach.rs:135-150 | the `AttachShared` trait keeps target, parameters and uniforms |
| ObjectBuilder.GenericAgainstMethod | src/object/program/attach.rs:135-150 | on a set stage the trait leaves the same stages as the builder's `*_shared` method; on an unset stage past the vertex one, it makes the library that stage's main shader where the method panics |
| ObjectBuilder.AttachMainHasNoInstance | src/object/program/attach.rs:162-190 | `AttachMain` needs a `NextTarget` entry from a target to itself, and the table has none |
| ObjectBuilder.ApplyKeepsTargetSet | src/object/program/builder.rs:144-370 | every builder call keeps the invariant that, past `Vertex`, the current target's stage is set |
| ObjectBuilder.ApplyAllKeepsTargetSet | src/object/program/builder.rs:144-370 | any run of calls keeps that invariant |
| ObjectBuilder.ReachedFragment | src/object/program/builder.rs:372-389 | from `new`, a builder at `Fragment` has its fragment stage, and `build`'s stage checks pass exactly when the vertex stage is set |
| ObjectBuilder.FragmentWithoutVertex | src/object/program/builder.rs:217-262 | `fragment_main` straight from `new` type-checks, and `build` then panics on the missing vertex stage |
| ObjectBuilder.Build | src/object/program/builder.rs:372-389 | `build` panics exactly when the vertex or fragment stage is missing, and otherwise links successfully exactly when there is no info log; the trace is program creation, the stages in pipeline order, then the link or the deletion |
| ObjectBuilder.Finish | src/object/program/builder.rs:383-388 | the end of `build` panics exactly when a stage is missing, and a successful link returns the program unchanged |
| ObjectProgram.Default | src/object/program/mod.rs:105-113 | `Program::default` allocates one live program object with one `Create` call |
| ObjectProgram.Link | src/object/program/mod.rs:209-219 | `LinkProgram` is issued; the result is `Ok` with the same program exactly when the log is empty, else `Err` with the log text, and then the program's name is deleted |
| ObjectProgram.LinkedWithLogDiffers | src/object/program/mod.rs:162-189 | because this `info_log` does not read the link status, a linked program with a non-empty log fails here but passes the `gl` tree's `link` |
| ObjectProgram.New | src/object/program/mod.rs:292-304 | `Builder::new` holds the vertex stage made from the given shader, takes its parameters, and leaves every other stage unset |
| ObjectProgram.MainTargetAgainstTable | src/object/program/mod.rs:311-386 | each `*_main` moves as the `NextTarget` table says, except that `tesselation_evaluation_main` from `Vertex` lands on tessellation control, which the table does not allow |
| ObjectProgram.AttachMain | src/object/program/mod.rs:311-386 | a `*_main` sets its stage anew, keeps every other stage and the inputs, and takes the shader's outputs |
| ObjectProgram.AttachShared | src/object/program/mod.rs:306-396 | a `*_shared` pushes onto the current stage, or panics exactly when that stage is unset; the target stays |
| ObjectProgram.VertexSharedNeverPanics | src/object/program/mod.rs:306-309 | `vertex_shared` always succeeds and keeps the vertex stage |
| ObjectProgram.EvaluationFromVertexThenSharedPanics | src/object/program/mod.rs:316-340 | after `tesselation_evaluation_main` from `Vertex`, `tesselation_control_shared` type-checks but always panics |
| ObjectProgram.AsWrittenMissesFragment | src/object/program/mod.rs:398-416 | the plan as written never attaches the fragment stage, and attaches the geometry stage twice when there is one |
| ObjectProgram.IntendedPlanAttachesFragment | src/object/program/mod.rs:398-416 | the corrected plan is the vertex, tessellation and geometry stages followed by the fragment stage |
| ObjectProgram.BuildAsWritten | src/object/program/mod.rs:398-416 | as written, `build` creates the program, attaches the as-written plan and links, succeeding exactly when the log is empty |
| ObjectProgram.Build | src/object/program/mod.rs:398-416 | corrected, `build` attaches the stages in pipeline order with the fragment stage last, then links, succeeding exactly when the log is empty |
| ObjectShader.StageTokensDistinct | src/object/shader.rs:19-35 | every shader stage has its own token |
| ObjectShader.ObjectRoundTrip | src/object/shader.rs:43-54 | going from an object to a shader and back keeps the object; from a shader and back keeps the shader; the stage is the type's |
| ObjectShader.Initialize | src/object/shader.rs:59-66 | `initialize` writes into slot `i` the `i`-th new shader name, issues one creation per slot, and returns `Ok` |
| ObjectShader.Free | src/object/shader.rs:68-75 | `free` issues one deletion per name, in order, and returns `Ok` |
| ObjectShader.InitializeMakesLive | src/object/shader.rs:59-66 | after `initialize`, every name written is a live shader object |
| ObjectShader.ProgramBuilder.Attach | src/object/shader.rs:104-138 | `attach` stores the shader in its stage's field and keeps every other field, so the fields stay typed by their stages |
| ObjectShader.StagesOf | src/object/shader.rs:148-158 | the stage list has one entry per shader, and entry `i` is shader `i`'s stage |
| ObjectShader.ProgramShape | src/object/shader.rs:148-158 | a program always has vertex and fragment shaders, has tessellation control exactly when it has tessellation evaluation, and has at most one shader per stage |
| TextureTarget.DimensionsTable | src/gl/texture/target.rs:28-30 | a target has one, two or three dimensions exactly as the three rows of `impl_dimensionality!` list it |
| TextureTarget.ArrayAddsDimension | src/gl/texture/target.rs:54-78 | each `Array<T>` target has one dimension more than `T`, and an array target is not itself the base of another |
| TextureTarget.TargetsDistinct | src/gl/texture/target.rs:44-93 | no two targets share a token, and only `Buffer` lacks internal storage |
| TextureImage.BaseFormatIsDerived | src/gl/texture/image.rs:105-186 | every listed format's base format is the one its components derive |
| TextureImage.DepthsPerKind | src/gl/texture/image.rs:132-186 | the bit depths the format table defines for each kind, both ways |
| TextureImage.TokenNamesFormat | src/gl/texture/image.rs:105-186 | a listed format's token names that format |
| TextureImage.TokensDistinct | src/gl/texture/image.rs:105-186 | listed formats have pairwise different tokens |
| TextureImage.FormatOf | src/gl/texture/image.rs:105-186 | decoding a token gives a format whose table row carries that very token; tokens outside the table decode to nothing |
| TextureImage.ValidForIsNarrower | src/gl/texture/image.rs:85-103 | every bit depth `ValidFor` allows is a defined format, but `R8`, `RG16`, `RGB8` and every non-normalized format are defined and not valid for it |
| HelloTextures.AsU8 | examples/src/hello_textures.rs:62-66 | `as u8` keeps every value below 256 |
| HelloTextures.WrappingAdd | examples/src/hello_textures.rs:63 | `wrapping_add` is the sum modulo 256: the plain sum below 256, the sum minus 256 otherwise |
| HelloTextures.Generate | examples/src/hello_textures.rs:55-71 | the texture has 256 × 256 pixels, and entry `i` is the pixel of column `i mod 256` in row `i / 256` |
| HelloTextures.RowMajor | examples/src/hello_textures.rs:60-69 | index `y * 256 + x` has column `x` and row `y` |
| HelloTextures.GeneratedPixel | examples/src/hello_textures.rs:55-71 | the pixel at row `y`, column `x` has red `(x + y) mod 256`, green `y` and blue `x` |
| TypeState.New | thesis/listings/type-state.rs:54-63 | a new session is anonymous, over a connection to the given address |
| TypeState.CheckPassword | thesis/listings/type-state.rs:80-87 | the check passes exactly for "password"; otherwise the error names the user and the password given |
| TypeState.LogIn | thesis/listings/type-state.rs:89-98 | log-in succeeds exactly for the right password, giving a verified session over the same connection with the user as context; otherwise it returns the check's error |
| TypeState.SecretNeedsLogIn | thesis/listings/type-state.rs:65-98 | a new session cannot read the secret, and reaches it exactly through a log-in with the right password |
| TypeState.Secret | thesis/listings/type-state.rs:65-70 | a verified session's secret is the fixed text `'a secret'`, the same for every connection and user; only a `Verified` session has the method |
| TypeState.DecimalRoundTrip | thesis/listings/type-state.rs:106-118 | reading back the decimal numeral of a number gives that number |
| TypeState.SplitAtDot | thesis/listings/type-state.rs:106-118 | a dotted address splits uniquely at its first dot |
| TypeState.FormatIpInjective | thesis/listings/type-state.rs:106-118 | different addresses print differently |
| TypeState.FormatIp | thesis/listings/type-state.rs:109 | `{:?}` of an address is at least seven characters long, and its first and last characters are digits |
| TypeState.SameNameSameAddress | thesis/listings/type-state.rs:106-118 | two greetings for the same name are equal only when the addresses are equal |
| TypeState.SameAddressSameName | thesis/listings/type-state.rs:106-118 | two greetings at the same address are equal only when the names are equal |
| TypeState.MainPageShape | thesis/listings/type-state.rs:106-118 | every main page reads "welcome {who} at {ip}!", where `who` is "anonymous" or the user's name |
| TypeState.MainPageReadBack | thesis/listings/type-state.rs:106-118 | from two equal main pages, equal names imply equal connections, and equal connections imply equal names |
| TypeState.MainPage | thesis/listings/type-state.rs:106-118 | a main page starts with "welcome {who} at " and ends with "!", where `who` is "anonymous" for an anonymous session and the user's name for a verified one |
| TypeState.LogInPage | thesis/listings/type-state.rs:54-118 | after logging in with the right password, the page greets the user at the address the anonymous page showed |
| TypeState.AnonymousNameSamePage | thesis/listings/type-state.rs:106-118 | a verified user named "anonymous" sees the same page as an anonymous session |
| CppWrapper.ErrorStringAgainstDecoder | presentation/c-samples/wrapper.hpp:29-41 | the C++ table names `GL_NO_ERROR` and every code the Rust decoder accepts except `CONTEXT_LOST`, gives them different strings, and calls every other code unknown |
| CppWrapper.ErrorString | presentation/c-samples/wrapper.hpp:29-41 | the message is never empty, and it is "Unknown error" exactly for the codes other than `GL_NO_ERROR` and `GL_INVALID_ENUM` through `GL_INVALID_FRAMEBUFFER_OPERATION` |
| CppWrapper.ShownIsLogPrefix | presentation/c-samples/wrapper.hpp:125-127 | the text shown is the info log cut to fit a 512-character buffer: the whole log when it fits, otherwise its first 511 characters |
| CppWrapper.Object.constructor | presentation/c-samples/wrapper.hpp:49 | a default `Object` has the name 0 |
| CppWrapper.Object.Name | presentation/c-samples/wrapper.hpp:51-53 | `Name()` is the object's name |
| CppWrapper.Buffer.constructor | presentation/c-samples/wrapper.hpp:61-63 | the constructor creates one live buffer object under the next name and keeps the target |
| CppWrapper.Buffer.Array | presentation/c-samples/wrapper.hpp:79-81 | `Array()` makes a new buffer for `GL_ARRAY_BUFFER` |
| CppWrapper.Buffer.Bind | presentation/c-samples/wrapper.hpp:65-67 | binds the buffer's name at its target |
| CppWrapper.Buffer.Unbind | presentation/c-samples/wrapper.hpp:69-71 | binds 0 at the buffer's target |
| CppWrapper.Buffer.Data | presentation/c-samples/wrapper.hpp:73-77 | the upload is `sizeof(T)` times the element count with the given usage, between a bind and an unbind; the target ends up unbound, the other bindings and the live objects do not change |
| CppWrapper.VertexArray.constructor | presentation/c-samples/wrapper.hpp:86-88 | the constructor creates one live vertex array under the next name |
| CppWrapper.VertexArray.Bind | presentation/c-samples/wrapper.hpp:90-92 | binds the vertex array |
| CppWrapper.VertexArray.Unbind | presentation/c-samples/wrapper.hpp:94-96 | binds vertex array 0 |
| CppWrapper.VertexArray.VertexAttribPointer | presentation/c-samples/wrapper.hpp:98-106 | the attribute at `index` is enabled with stride `size * sizeof(T)`. It reads from the buffer when the buffer's target is `GL_ARRAY_BUFFER`, and otherwise from whatever buffer `GL_ARRAY_BUFFER` already held, since the public `Buffer(GLenum target)` constructor allows any target; the vertex array and the buffer's target end up unbound |
| CppWrapper.Shader.Named | presentation/c-samples/wrapper.hpp:109-113 | a shader object holds its target and name |
| CppWrapper.Shader.Compile | presentation/c-samples/wrapper.hpp:113-130 | the constructor creates a shader, gives it one source string and compiles it; it returns the shader exactly when it compiled, and otherwise exits showing the truncated log under "Shader Compilation Error" |
| CppWrapper.Shader.Vertex | presentation/c-samples/wrapper.hpp:136-138 | `Shader::Vertex` is the constructor with the vertex-shader token |
| CppWrapper.Shader.Fragment | presentation/c-samples/wrapper.hpp:140-142 | `Shader::Fragment` is the constructor with the fragment-shader token |
| CppWrapper.Shader.Drop | presentation/c-samples/wrapper.hpp:132-134 | the destructor deletes the shader's name, and only that name leaves the live set |
| CppWrapper.Program.constructor | presentation/c-samples/wrapper.hpp:147-149 | the constructor creates one live program under the next name |
| CppWrapper.Program.AttachShader | presentation/c-samples/wrapper.hpp:151-153 | the shader is recorded as attached to the program |
| CppWrapper.Program.Link | presentation/c-samples/wrapper.hpp:155-167 | `LinkProgram` is issued; without a link status the process exits showing the truncated log under "Program Linking Error" |
| CppWrapper.Program.Use | presentation/c-samples/wrapper.hpp:169-171 | `Use` leaves the program current |
| CppWrapper.Program.Drop | presentation/c-samples/wrapper.hpp:173-175 | the destructor deletes the program's name, and only that name leaves the live set |
| CppWrapper.Texture.constructor | presentation/c-samples/wrapper.hpp:182-184 | the constructor generates one live texture name and keeps the target |
| CppWrapper.Texture.CreateWithStorage2D | presentation/c-samples/wrapper.hpp:210-212 | makes a new texture for `GL_TEXTURE_2D`; despite its name it allocates no storage |
| CppWrapper.Texture.Bind | presentation/c-samples/wrapper.hpp:186-188 | binds the texture at its target |
| CppWrapper.Texture.Unbind | presentation/c-samples/wrapper.hpp:190-192 | binds 0 at the texture's target |
| CppWrapper.Texture.Storage2D | presentation/c-samples/wrapper.hpp:194-198 | one level of immutable storage is allocated between a bind and an unbind; the target ends up unbound and other bindings stay |
| CppWrapper.Texture.SubImage2D | presentation/c-samples/wrapper.hpp:200-204 | level 0 is written at the given offset and size between a bind and an unbind; the target ends up unbound and other bindings stay |
| CppWrapper.Texture.Drop | presentation/c-samples/wrapper.hpp:206-208 | the destructor deletes the texture's name, and only that name leaves the live set |

## Left out

- Windowing, the GL context, the event loops and the examples' `initialize` bodies: they are I/O against the platform and hold no logic of the library's own.
- Reading shader files from disk: file I/O; shader sources are given as values.
- Floating-point arithmetic (clear colours, vertex positions, uniform values as numbers): the model carries floats only as opaque values.
- The `println!` calls that `Connection` makes when it is created and dropped in the type-state listing: output only.
- `MessageBox` in the C++ wrapper: it is a platform dialog; the model records the exit it is followed by as an `Exit` value.
- `CHECK_GL_ERROR` in the C++ wrapper: the macro is switched off, so the error checks it would add are not modelled.
- The C++ wrapper's `GLsizei` and `GLint` sizes: modelled as `nat`, so negative sizes are not represented.
- The C++ `glGenTextures` call: modelled as the same name allocation as `glCreate*`, without the distinction that a generated name has no object until first bind.
- The data pointer passed to the C++ `SubImage2D`, and `sizeof(T)` of the element type: the contents behind it are not modelled, and the element size is a parameter.
- `draw_arrays` and `draw_arrays_ext` are not modelled: no draw call, and no bind or unbind around it, appears in any trace, because drawing changes nothing the model tracks.
- Query calls are not recorded in any trace: `GetShaderiv`, `GetProgramiv`, `GetShaderInfoLog`, `GetProgramInfoLog` and `GetError` in the Rust wrappers, and `glGetShaderiv`, `glGetShaderInfoLog`, `glGetProgramiv` and `glGetProgramInfoLog` in the C++ wrapper. They change no driver state, and their answers are parameters.
- The error check of `gl::call!` / `gl_call!` with its panic flag: the macro's definition is not part of this model. Every wrapped call is modelled as raising no GL error, so the panic that the check after the block raises on a queued error is never taken. `GlError.PollQueue` models the drain itself.
- Driver name allocation: every `glCreate*` and `glGen*` call takes its names from one counter shared by all object kinds, and a deleted name is never handed out again. A real driver keeps one name space per kind and may reuse a deleted name, so the model does not cover code that relies on getting a particular name back.
- The contents of mapped buffers: `Map` and `MapMut` model the bind, map and unbind calls and the view's length, not the mapped bytes.
- The texture allocators: they issue the same create and delete calls as the other allocators, which are modelled once.
- The numeric values of the `gl` and `glb` constant tables are left out, apart from the tokens the model uses. Those tokens follow the OpenGL 4.6 Core Profile: the GL error codes (`gl_error.dfy`), the texture targets (`texture_target.dfy`), the `GL_TYPE` scalar tokens (`types.dfy`), the shader-stage tokens (`object_shader.dfy`, and `VERTEX_SHADER`/`FRAGMENT_SHADER` in `cpp_wrapper.dfy`), `GL_TEXTURE_2D` (`cpp_wrapper.dfy`), and the base and sized internal-format tokens (`texture_image.dfy`).
- `AttachMain` in `src/object/program/attach.rs`: its body is `todo!()`; `ObjectBuilder.AttachMainHasNoInstance` states that the model offers no way to call it.
- The generic `attach` of the vertex stage in the object builder: it passes a value where an `Option` is expected, so it has no meaning to model.
- `ProgramConfiguration`: its body is `todo!()`.
- The object builder's `build` calls `create_with_uniforms`, which does not exist; it is modelled as the default program followed by the unchecked link.
- The gl builder never sets its matcher, so its `build` always panics at `expect("matcher is provided")`; the model keeps the matcher as an option and returns that panic.
- The gl shader's `uniform()` resets `uniform_declarations` to its default: the reset is in the type only and has no value to model.
- `Bindable` bind and unbind in `src/object/program/mod.rs`: not modelled, because they are the guard calls already modelled for every object.
- The `vars!` destructuring macro: it is syntax.
- Trait resolution itself: each impl block becomes a function whose `requires` is that block's bounds.
- Marker, alias and re-export files, the constraint files and the wrappers that only delegate: they hold no behaviour of their own.
- The lib aliases in `src/gl/shader/lib.rs`: every one of them uses `Vertex`, and the one lib the model has stands for all of them.
- `src/object/vertex_array.rs`, `src/gl/program/uniform.rs` and `src/object/buffer.rs`: they are incomplete in the repository.
- CompatibleListIff: `Feeds` models the `ffi::FFI<Layout = P::Layout>`, `Compatible<P>` and `glsl::Type` bounds of the hlist impl, but not `A: Attribute` nor the `constraint::Valid` bounds, whose impls are not part of this model; the relation it characterises is therefore larger than the source's by those bounds.
- The `GLSL: glsl::Type<Group = glsl::marker::Transparent>` bound of `Compatible`: `src/glsl/glsl.rs` declares no `Group` and no `Layout` for its types. The model takes every valid type as transparent, and uses as `GLSL::Layout` the layouts the glm impls name (`[T; N]` for vectors, `[[T; C]; R]` for matrices), with `[T::Layout; N]` for arrays.
- The nalgebra-glm impls of `FFI` and `Compatible` for `glm::TVec` and `glm::TMat` (`src/glsl/compatible.rs:93-148`): they are behind a cargo feature and name foreign types; their layouts are the `[T; N]` and `[[T; C]; R]` that the model's own table already admits.
- TypeState.LogIn: a failed log-in consumes the anonymous session, so its connection is dropped and closed; the model returns only the error and does not state that the session is gone, since the drop only prints.
- ObjectShader.Initialize: the trace records the shader's creation without the stage token passed to `CreateShader`.

## Findings

| source | as written | input that shows it | evidently intended | confidence | as-written member | corrected member |
|---|---|---|---|---|---|---|
| notes/const-all-diffrernt.rs:25 | the bound check is `index > N`, so `index == N` passes and `new_array[N]` panics on an out-of-bounds index instead of reporting the buffer as too small | an array of `N` elements and `index = N` | reject every `index >= N` | not executed | AllDiff.AsWrittenGuardMissesN | AllDiff.AllDiff |
| src/object/buffer/mod.rs:131 | the byte count is `size_of::<GLSL::Primitive>() * len` | `[f32; 3]` data for a `vec3` buffer: 4 bytes per element are uploaded instead of 12 | the byte count of the slice passed, `size_of::<GL>() * len` | not executed | Buffer.AsWrittenUndersizes | Buffer.UploadCoversData |
| src/object/program/mod.rs:411 | the fragment branch reads `if let Some(fragment) = &self.geometry` | any builder with a fragment stage: the fragment shader is never attached and the geometry shader, when there is one, is attached twice | attach the fragment stage from `self.fragment` | not executed | ObjectProgram.AsWrittenMissesFragment | ObjectProgram.IntendedPlanAttachesFragment |
| src/gl/vertex_array/vertex_array.rs:121 | `buffer.bind();` makes a guard that is dropped at once, before `VertexAttribPointer` | any attach: `ARRAY_BUFFER` is 0 when the attribute pointer is set, so no buffer is captured | keep the guard alive across `VertexAttribPointer` | not executed | VertexArray.GuardedAttachLosesBuffer | VertexArray.GuardedAttachEffect |
