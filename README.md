# gdnative-derive `methods` pass, modelled in Dafny

`#[methods]` is the procedural macro of godot-rust that turns an `impl` block
into a Godot NativeScript class registration. This project models the
compile-time pass behind it, `gdnative-derive/src/methods.rs`, over plain
datatypes. Its input is an impl block. A method in it has attributes whose
payloads are already parsed into `syn`'s three meta shapes, and parameters
described by pattern kind, `mut` flag and attributes. Its generics are
type, lifetime or const parameters. The pass:

1. drops every `#[export]` attribute of every method. Such an attribute is
   one in outer style whose path's last segment is `export`. The pass parses
   the attribute's `rpc = "..."` option. Every list element that is not a
   `name = value` pair is reported. Of the pairs, unknown and malformed ones
   are reported up to the first `rpc` pair or the first malformed pair, and
   the pairs after it are not looked at (`Directive`);
2. on exported methods, strips the `#[opt]` markers from the parameters and
   counts the optional parameters after the receiver and the owner. It reports
   a marker on the receiver or the owner, and a required parameter after an
   optional one (`OptionalScan`);
3. puts each method back into the block, behind its own diagnostics, and
   collects one export record per exported method (`Extract`);
4. rejects exported methods with generic parameters, with one diagnostic
   appended to the block. It normalises the others: wildcards become
   `___unused_arg_{i}`, `mut` is dropped from identifier patterns and
   `unsafe` is removed (`Extract`);
5. turns each accepted record into one registration or one compile error.
   The error cases are fewer than two parameters and an optional count
   above `arg_count - 2`. A registration tags the last `optional_args`
   parameters as optional (`Emit`).

`RpcMode` parsing, its default and the record types are in `Exports`; `Syntax`
holds the syntax tree, the diagnostics and their exact message texts.

Each `for` and `retain` loop of the source is a method, proved equal to a fold
over a prefix of its input, with `Fold(s) == Step(last(s), Fold(init(s)))`.
The in-place `for_each` of the normalisation is a method proved equal to a
sequence comprehension, and the `map`s of `derive_methods` are functions.
Lemmas then relate every fold to an independent closed form:

- the first stopping pair of an attribute;
- the last attribute that selects a mode;
- the number of optional markers;
- the records of the exported methods;
- the input items without the inserted diagnostics;
- for the two list filters, a concatenation law and a one-element case,
  which together fix the result.

The pure parts of the source are functions: `RpcMode::parse`, `Default`, and
the `map` closure of `derive_methods`.

Points where the code's behaviour is easy to misread:

- `#[export = lit]` parses to a name/value meta whose path is the attribute's
  own path (methods.rs:231), which ends in `export`. The pair loop therefore
  reports "unknown option for export: `export`" and never selects a mode
  (methods.rs:288-291).

- An attribute's pair list stops at the first `rpc` pair, valid or not, and
  at any pair-level error (methods.rs:251, 266, 275, 282, 285). Only unknown
  keys before the first `rpc` pair let the loop go on (methods.rs:288-291).
- A second `rpc` value replaces the first (`Option::replace`) and also adds
  a "set more than once" diagnostic (methods.rs:269-276).
- The rpc type error reads "unexpected type for rpc value, expected Str"
  (methods.rs:259-266).
- The arity floor of two parameters is checked during emission
  (methods.rs:92-100), after the generics check (methods.rs:369-391).
- A generic method gets exactly one diagnostic, for the first kind present,
  in the order type, lifetime, const (methods.rs:369-391).
- `#[opt]` markers are only stripped on exported methods (methods.rs:302-341
  run inside `if let Some(..) = export_args`).
- Normalisation only changes the exported copy of the signature
  (methods.rs:393-424). The method put back into the block keeps its `mut`,
  `_` patterns and `unsafe`.

## Model

| member | source | states |
|---|---|---|
| Exports.ParseRpcMode | gdnative-derive/src/methods.rs:19-30 | a mode exactly for the seven mode strings, and the mode it returns is spelled by that string |
| Exports.ParseModeName | gdnative-derive/src/methods.rs:19-30 | every mode is returned for its own name |
| Exports.ParseInjective | gdnative-derive/src/methods.rs:19-30 | two accepted strings that give the same mode are the same string |
| Exports.DefaultRpcMode | gdnative-derive/src/methods.rs:33-37 | the default mode is the one `"disabled"` selects |
| Exports.DefaultExportArgs | gdnative-derive/src/methods.rs:64-68 | default export arguments: no optional count, default rpc mode |
| Directive.SplitList | gdnative-derive/src/methods.rs:210-231 | every list element becomes a pair or one "unexpected argument in list" diagnostic |
| Directive.SplitListAppend | gdnative-derive/src/methods.rs:210-231 | the split of a concatenation is the two splits joined: pairs keep their order, diagnostics keep theirs |
| Directive.SplitListElement | gdnative-derive/src/methods.rs:214-229 | a `name = value` element becomes that pair; any other element becomes one "unexpected argument in list" diagnostic with its own tokens at its own span |
| Directive.CollectPairs | gdnative-derive/src/methods.rs:210-231 | the `filter_map` loop keeps the name/value pairs and appends one diagnostic per other element |
| Directive.PairStep | gdnative-derive/src/methods.rs:243-292 | one pair stops the attribute iff its path is empty or ends in `rpc`; a valid mode replaces `rpc`; exactly one diagnostic is added unless a mode is set for the first time, and it is "set more than once" iff a mode is set again; an empty path gives "the path should not be empty" at the path, a non-string value "expected Str", an unknown mode "unexpected value for rpc" and a second mode "set more than once", each at the key; any other key adds one "unknown option" and goes on |
| Directive.ParsePairs | gdnative-derive/src/methods.rs:243-292 | the pair loop with its early returns computes the fold of `PairStep` over the pairs |
| Directive.StopIsFinal | gdnative-derive/src/methods.rs:243-292 | once the attribute has stopped, later pairs change nothing |
| Directive.StopAt | gdnative-derive/src/methods.rs:243-292 | the first stopping pair decides the outcome of the whole list |
| Directive.FirstStop | gdnative-derive/src/methods.rs:243-292 | the index of the first pair that stops the loop, or the length |
| Directive.UnknownOptionDiags | gdnative-derive/src/methods.rs:290-291 | one "unknown option" diagnostic per non-stopping pair, in order |
| Directive.PairsFoldClosedForm | gdnative-derive/src/methods.rs:243-292 | the pair loop equals: unknown-option diagnostics for the pairs before the first stopping pair, then that pair's effect |
| Directive.PairsExtendErrors | gdnative-derive/src/methods.rs:243-292 | the pair loop only appends diagnostics |
| Directive.CountSetTwiceAppend | gdnative-derive/src/methods.rs:270-275 | "set more than once" counts add up over concatenation |
| Directive.PairStepCount | gdnative-derive/src/methods.rs:269-276 | one pair adds a "set more than once" diagnostic exactly when it selects a mode while one is already set |
| Directive.UnknownOptionsCount | gdnative-derive/src/methods.rs:290-291 | unknown-option diagnostics never count as "set more than once" |
| Directive.PairsRpc | gdnative-derive/src/methods.rs:258-286 | `rpc` becomes the mode of the first stopping pair if it selects one and is otherwise unchanged; a duplicate is reported iff a mode was already set |
| Directive.ExportFilter | gdnative-derive/src/methods.rs:188-300 | the `retain` closure drops exactly the export attributes and applies each one's effect on the shared state |
| Directive.ApplyPairsFacts | gdnative-derive/src/methods.rs:243-292 | walking an attribute's pairs keeps the export arguments, sets `rpc` as the first stopping pair says and only appends diagnostics |
| Directive.AttrEffectFacts | gdnative-derive/src/methods.rs:188-300 | an export attribute installs default export arguments, replaces `rpc` iff it selects a mode, reports a duplicate iff `rpc` was set; it appends nothing without tokens, the parser's error for unparsable tokens, "unexpected attribute argument" for a bare path, the list's own diagnostics before its pairs', and for `#[export = lit]` one "unknown option" naming `export` and no mode; other attributes change nothing |
| Directive.NonExportAttrs | gdnative-derive/src/methods.rs:188-300 | no export attribute is kept and none is added; without export attributes the list is unchanged |
| Directive.NonExportAttrsAppend | gdnative-derive/src/methods.rs:188-300 | the attributes kept from a concatenation are those kept from each part, in order |
| Directive.NonExportAttrsSingle | gdnative-derive/src/methods.rs:188-300 | one attribute is kept iff it is not an export attribute |
| Directive.NonExportAttrsMembers | gdnative-derive/src/methods.rs:188-300 | an attribute is kept iff it is one of the method's attributes and not an export attribute |
| Directive.RetainAttrs | gdnative-derive/src/methods.rs:188-300 | `method.attrs.retain` keeps the non-export attributes, in order and with their multiplicity (`NonExportAttrsAppend`, `NonExportAttrsSingle`), and folds the closure's effect over all of them |
| Directive.ExportDetected | gdnative-derive/src/methods.rs:197-198 | export arguments are created (with defaults) iff some attribute is an export attribute |
| Directive.NoExportUnchanged | gdnative-derive/src/methods.rs:188-300 | a method without export attributes gets no diagnostics and no mode |
| Directive.RpcLastWins | gdnative-derive/src/methods.rs:269-276 | the final mode is that of the last attribute that selects one |
| Directive.DuplicateRpcReported | gdnative-derive/src/methods.rs:269-276 | n attributes selecting a mode give n - 1 "set more than once" diagnostics and a set mode iff n > 0 |
| OptionalScan.NonOptAttrs | gdnative-derive/src/methods.rs:313-320 | no `#[opt]` attribute survives; without one the list is unchanged |
| OptionalScan.NonOptAttrsMembers | gdnative-derive/src/methods.rs:313-320 | an attribute is kept iff it is one of the parameter's attributes and not `#[opt]` |
| OptionalScan.NonOptAttrsAppend | gdnative-derive/src/methods.rs:313-320 | the attributes kept from a concatenation are those kept from each part, in order |
| OptionalScan.NonOptAttrsSingle | gdnative-derive/src/methods.rs:313-320 | one attribute is kept iff it is not `#[opt]` |
| OptionalScan.RetainNonOpt | gdnative-derive/src/methods.rs:311-320 | the per-parameter `retain` removes the `#[opt]` attributes, keeps every other one in order, and reports whether there was one |
| OptionalScan.HasOptAttrSnoc | gdnative-derive/src/methods.rs:313-320 | one more attribute holds an `#[opt]` iff the earlier ones did or it is one |
| OptionalScan.Strip | gdnative-derive/src/methods.rs:305-320 | the attributes of the stripped parameter are its non-`#[opt]` ones |
| OptionalScan.StripParam | gdnative-derive/src/methods.rs:305-320 | a parameter loses its `#[opt]` attributes and nothing else |
| OptionalScan.ScanOptional | gdnative-derive/src/methods.rs:302-341 | the `iter_mut` loop, rewriting parameters in place, computes the fold of the per-parameter step |
| OptionalScan.CountOpt | gdnative-derive/src/methods.rs:322-331 | the marked parameters after the receiver and the owner: zero, or at most `inputs - 2`; positive iff one exists |
| OptionalScan.ScanStrips | gdnative-derive/src/methods.rs:305-320 | the parameters keep their order and lose exactly their `#[opt]` attributes |
| OptionalScan.StepErrors | gdnative-derive/src/methods.rs:322-338 | a parameter adds one diagnostic iff it is marked at index 0 or 1 ("self or owner cannot be optional") or unmarked after the count has started ("cannot add required parameters after optional ones"), at the parameter's span |
| OptionalScan.ScanExtendsErrors | gdnative-derive/src/methods.rs:322-338 | the scan only appends diagnostics |
| OptionalScan.OptionalCounted | gdnative-derive/src/methods.rs:322-341 | the optional count is unset iff no parameter at index 2 or later is marked, and otherwise the number of marked ones |
| OptionalScan.ScanCleanIff | gdnative-derive/src/methods.rs:322-338 | the scan reports nothing iff neither receiver nor owner is marked and no unmarked parameter follows a marked one |
| OptionalScan.WellPlacedSnoc | gdnative-derive/src/methods.rs:322-338 | one more parameter keeps the markers well placed iff the scan does not report it |
| OptionalScan.MarkedSuffix | gdnative-derive/src/methods.rs:322-338 | with well-placed markers, the marked parameters are exactly the last `optional_args` ones |
| Extract.ExposeMethod | gdnative-derive/src/methods.rs:181-354 | the method arm: attributes retained, the optional scan run on exported methods, the record built with the mode defaulting to `Disabled` |
| Extract.StripAll | gdnative-derive/src/methods.rs:305-320 | the stripped parameters are as many as before and none is marked |
| Extract.MethodClosedForm | gdnative-derive/src/methods.rs:302-347 | a method yields a record iff it has an export attribute; the record holds the stripped signature, the marker count and the last selected mode; the method put back lacks its export markers and, if exported, its `#[opt]` markers |
| Extract.MethodDiagnostics | gdnative-derive/src/methods.rs:185-354 | an unexported method gets no diagnostics; an exported one gets none iff its export attributes parse cleanly and its markers are well placed |
| Extract.ErrorItems | gdnative-derive/src/methods.rs:350-352 | one error item per diagnostic, in order |
| Extract.ShapeError | gdnative-derive/src/methods.rs:365-391 | a method is accepted iff it has no generic parameter; otherwise the diagnostic is for type parameters iff it has one, for lifetimes iff it has no type parameter but a lifetime, and for const parameters iff it has only const parameters |
| Syntax.Decimal | gdnative-derive/src/methods.rs:403 | the spelling is a non-empty string of digits with no leading zero |
| Syntax.DecimalValue | gdnative-derive/src/methods.rs:403 | reading the spelling back, most significant digit first, gives the number |
| Syntax.DecimalInjective | gdnative-derive/src/methods.rs:106-109 | distinct numbers are spelled differently |
| Extract.UnusedArgName | gdnative-derive/src/methods.rs:403 | the wildcard name is `___unused_arg_` followed by the decimal spelling of the index |
| Extract.UnusedArgNameInjective | gdnative-derive/src/methods.rs:403 | different indices give different names |
| Extract.NormalizeArg | gdnative-derive/src/methods.rs:400-420 | no wildcard and no `mut` identifier remains; a wildcard becomes the plain identifier named after its index; `ref` and sub-patterns, receivers, other patterns, attributes and types are untouched |
| Extract.Normalized | gdnative-derive/src/methods.rs:393-424 | normalisation keeps the parameter count and everything but the parameters and `unsafe`, which it clears |
| Extract.NormalizeSig | gdnative-derive/src/methods.rs:393-424 | the in-place `for_each` and `unsafety = None` compute the normalised signature |
| Extract.NormalizedIdempotent | gdnative-derive/src/methods.rs:393-424 | normalising twice is normalising once |
| Extract.WildNamesDistinct | gdnative-derive/src/methods.rs:402-411 | two wildcards get different identifiers |
| Extract.ExposeItem | gdnative-derive/src/methods.rs:180-357 | the `match func` gives the items the fold puts back for one item and the record it collects |
| Extract.ExtractItems | gdnative-derive/src/methods.rs:177-360 | the first loop computes the fold over all items of the new item list and `methods_to_export` |
| Extract.CheckShapes | gdnative-derive/src/methods.rs:364-428 | the second loop computes the fold of the shape check over the collected records |
| Extract.Expose | gdnative-derive/src/methods.rs:160-431 | the pass computes the rewritten impl block and the export list that `ExposeSpec` defines |
| Extract.FirstPassRecords | gdnative-derive/src/methods.rs:177-348 | `methods_to_export` holds one record per method with an export attribute, in declaration order |
| Extract.NonErrorItemsAppend | gdnative-derive/src/methods.rs:359 | removing diagnostics commutes with concatenation |
| Extract.CleanedItems | gdnative-derive/src/methods.rs:179-360 | each input item, cleaned, in order |
| Extract.ItemOutputNonErrors | gdnative-derive/src/methods.rs:350-356 | of the items one input item becomes, only the cleaned item itself is not a diagnostic |
| Extract.ItemsRestored | gdnative-derive/src/methods.rs:179-360 | without the inserted diagnostics the new item list is the input list in order, methods cleaned, other items unchanged |
| Extract.ItemPlacement | gdnative-derive/src/methods.rs:350-356 | a method is replaced by all of its own diagnostics, in order, followed by the method itself; other items are kept |
| Extract.RejectedItemsFacts | gdnative-derive/src/methods.rs:369-391 | one appended item per rejected record, each a generics diagnostic |
| Extract.ShapeFoldFacts | gdnative-derive/src/methods.rs:364-428 | accepted records are kept normalised and in order; after the existing items come, for each rejected record in order, a diagnostic at its method name for its first generic kind; accepted plus rejected is every record |
| Extract.ExportedRecordsBound | gdnative-derive/src/methods.rs:322-341 | every extracted optional count is at least 1 and at most `inputs - 2` |
| Extract.AcceptedRegistrable | gdnative-derive/src/methods.rs:393-426 | every accepted record has no generics, no `unsafe`, no wildcard, no `mut` identifier and a bounded optional count |
| Extract.ExposeFacts | gdnative-derive/src/methods.rs:160-431 | the block keeps header and type and ends with, for each rejected method in order, its generics diagnostic at its name; `export.methods` is the accepted records in order, each registrable |
| Emit.Tag | gdnative-derive/src/methods.rs:119-126 | the parameters pass on in order |
| Emit.TagSuffix | gdnative-derive/src/methods.rs:119-126 | the optional tags form a suffix of exactly `optional_args` parameters, never the receiver or the owner when the count is in bounds |
| Emit.EmitMethod | gdnative-derive/src/methods.rs:81-140 | an error iff fewer than two parameters or an optional count above `arg_count - 2`, each with its message at the method name; otherwise a registration with the class, name, return type, rpc mode and tagged parameters |
| Emit.Statements | gdnative-derive/src/methods.rs:78-141 | one statement per exported method, in order |
| Emit.RegistrableEmits | gdnative-derive/src/methods.rs:102-115 | for an extracted record the optional-count error never fires: an error iff fewer than two parameters |
| Emit.DeriveFacts | gdnative-derive/src/methods.rs:70-156 | one statement per accepted exported method, in order, with its name and rpc mode; an error exactly when it takes fewer than two parameters |
| Emit.MarkersRoundTrip | gdnative-derive/src/methods.rs:119-126 | for a well-marked exported method, the registration tags exactly the parameters marked `#[opt]` in the source and carries the last selected mode |

## Left out

- Token streams: `quote!`, `quote_spanned!`, `to_compile_error` and `ToTokens for RpcMode` (methods.rs:39-51). Diagnostics are span/message values, and each emitted statement is a record of what it passes on.
- `syn` parsing: `attr.parse_meta()` is an input. An attribute's payload is given as no tokens, unparsable tokens (with the parser's message and position), or a parsed meta.
- Spans are opaque numbers that are only copied into diagnostics. The value `Spanned::span` computes from tokens is not modelled.
- Token text in diagnostics: `into_token_stream()` printing is an input string carried by the meta node.
- `Path::is_ident("opt")` also rejects a path with generic arguments. Path arguments are not part of the model, so `IsOptAttr` checks only the single segment.
- Where clauses: generics are only their type, lifetime and const parameters, the three kinds the shape check counts.
- Pattern attributes: the attribute list of a `PatIdent` is not modelled. A renamed wildcard gets a fresh identifier pattern, with no `ref`, no `mut` and no sub-pattern.
- Types, bodies, non-method items and the class type are opaque numbers the pass only copies.
- `crate::automatically_derived()`, `godot_wrap_method!`, the `ClassBuilder` calls and the `NativeClassMethods` wrapper: generated or foreign code.
- `DeriveMethods` is specified through `DeriveFacts`; the `register` function's body is the statement sequence.
