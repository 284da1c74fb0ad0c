/**
  `impl_gdnative_expose` (gdnative-derive/src/methods.rs:158-431): the pass
  that rebuilds an impl block without its export and `#[opt]` markers, puts
  each method's diagnostics in front of it, and collects the exported
  methods; then it rejects generic methods and normalises the signatures of
  the others.
*/
module Extract {
  import opened Syntax
  import opened Exports
  import opened Directive
  import opened OptionalScan

  /** The closure state each method starts from. */
  function NoDirective(): Directive {
    Directive(None, None, [])
  }

  predicate HasExportAttr(attrs: seq<Attr>) {
    exists k :: 0 <= k < |attrs| && IsExportAttr(attrs[k])
  }

  // ---------------------------------------------------------------------------
  // One method of the impl block (methods.rs:181-354)

  /** The diagnostics for one method, the method as put back, and its export record if any. */
  datatype MethodOutcome = MethodOutcome(diags: seq<Diag>, rewritten: ImplMethod, record: Option<ExportMethod>)

  function ProcessMethod(m: ImplMethod): MethodOutcome {
    var d := AttrsFold(m.attrs, NoDirective());
    var attrs := NonExportAttrs(m.attrs);
    if d.exportArgs.None? then MethodOutcome(d.errors, m.(attrs := attrs), None)
    else
      var s := ScanInputs(m.sig.inputs, OptScan([], None, d.errors));
      var sig := m.sig.(inputs := s.inputs);
      var args := d.exportArgs.value.(optionalArgs := s.optional, rpcMode := GetOr(d.rpc, Disabled));
      MethodOutcome(s.errors, ImplMethod(attrs, sig, m.body), Some(ExportMethod(sig, args)))
  }

  /** The body of the `ImplItem::Method` arm. */
  method ExposeMethod(m: ImplMethod) returns (diags: seq<Diag>, rewritten: ImplMethod, record: Option<ExportMethod>)
    ensures MethodOutcome(diags, rewritten, record) == ProcessMethod(m)
  {
    var attrs, d := RetainAttrs(m.attrs, NoDirective());
    rewritten := m.(attrs := attrs);
    diags := d.errors;
    record := None;
    if d.exportArgs.Some? {
      var exportArgs := d.exportArgs.value;
      var inputs, optional, errors := ScanOptional(m.sig.inputs, diags);
      rewritten := rewritten.(sig := rewritten.sig.(inputs := inputs));
      diags := errors;
      exportArgs := exportArgs.(optionalArgs := optional, rpcMode := GetOr(d.rpc, Disabled));
      record := Some(ExportMethod(rewritten.sig, exportArgs));
    }
  }

  /** Every parameter with its `#[opt]` attributes removed. */
  function StripAll(inputs: seq<FnArg>): (r: seq<FnArg>)
    ensures |r| == |inputs|
    ensures forall k :: 0 <= k < |r| ==> !IsOptional(r[k])
  {
    seq(|inputs|, k requires 0 <= k < |inputs| => Strip(inputs[k]))
  }

  /** The number of trailing optional parameters as the record stores it. */
  function OptionalCount(inputs: seq<FnArg>): Option<nat> {
    if CountOpt(inputs) == 0 then None else Some(CountOpt(inputs))
  }

  /** The mode of the last export attribute that selects one, `Disabled` if none does. */
  function FinalRpc(attrs: seq<Attr>): RpcMode {
    var ms := AttrModes(attrs);
    var k := LastSet(ms);
    if k < 0 then Disabled else ms[k].value
  }

  /** The export record of a method, read off its attributes and parameters directly. */
  function RecordOf(m: ImplMethod): ExportMethod {
    ExportMethod(m.sig.(inputs := StripAll(m.sig.inputs)), ExportArgs(OptionalCount(m.sig.inputs), FinalRpc(m.attrs)))
  }

  /** The method as put back into the impl block, read off directly. */
  function CleanedMethod(m: ImplMethod): ImplMethod {
    m.(attrs := NonExportAttrs(m.attrs),
       sig := if HasExportAttr(m.attrs) then m.sig.(inputs := StripAll(m.sig.inputs)) else m.sig)
  }

  lemma ScanAgrees(inputs: seq<FnArg>, errors: seq<Diag>)
    ensures var s := ScanInputs(inputs, OptScan([], None, errors));
      s.inputs == StripAll(inputs) && s.optional == OptionalCount(inputs)
  {
    ScanStrips(inputs, OptScan([], None, errors));
    OptionalCounted(inputs, OptScan([], None, errors));
  }

  /**
    A method yields a record exactly when one of its attributes is an export
    attribute, and that record holds the stripped signature, the number of
    marked parameters after the receiver and the owner, and the last mode
    selected (`Disabled` if none). Export markers are always removed; `#[opt]`
    markers only on exported methods; nothing else about the method changes.
  */
  lemma MethodClosedForm(m: ImplMethod)
    ensures var o := ProcessMethod(m);
      && o.record == (if HasExportAttr(m.attrs) then Some(RecordOf(m)) else None)
      && o.rewritten == CleanedMethod(m)
  {
    var d := AttrsFold(m.attrs, NoDirective());
    ExportDetected(m.attrs, NoDirective());
    RpcLastWins(m.attrs, NoDirective());
    if d.exportArgs.Some? {
      ScanAgrees(m.sig.inputs, d.errors);
    }
  }

  /**
    The diagnostics of a method: none unless it is exported; for an exported
    one, none exactly when its export attributes parse cleanly and its
    `#[opt]` markers are well placed.
  */
  lemma MethodDiagnostics(m: ImplMethod)
    ensures var o := ProcessMethod(m); var d := AttrsFold(m.attrs, NoDirective());
      && (!HasExportAttr(m.attrs) ==> o.diags == [])
      && (HasExportAttr(m.attrs) ==> (o.diags == [] <==> d.errors == [] && WellPlaced(m.sig.inputs)))
  {
    var d := AttrsFold(m.attrs, NoDirective());
    ExportDetected(m.attrs, NoDirective());
    if !HasExportAttr(m.attrs) {
      NoExportUnchanged(m.attrs, NoDirective());
    } else {
      var st := OptScan([], None, d.errors);
      ScanExtendsErrors(m.sig.inputs, st);
      ScanCleanIff(m.sig.inputs, st);
    }
  }

  // ---------------------------------------------------------------------------
  // All items (methods.rs:179-360)

  function ErrorItems(diags: seq<Diag>): (r: seq<ImplItem>)
    ensures |r| == |diags|
    ensures forall k :: 0 <= k < |r| ==> r[k] == ErrorItem(diags[k])
  {
    seq(|diags|, k requires 0 <= k < |diags| => ErrorItem(diags[k]))
  }

  /** The items one input item is replaced by. */
  function ItemOutput(item: ImplItem): seq<ImplItem> {
    match item
    case MethodItem(m) =>
      var o := ProcessMethod(m);
      ErrorItems(o.diags) + [MethodItem(o.rewritten)]
    case _ => [item]
  }

  function ItemRecord(item: ImplItem): seq<ExportMethod> {
    match item
    case MethodItem(m) =>
      var o := ProcessMethod(m);
      if o.record.Some? then [o.record.value] else []
    case _ => []
  }

  /** The `match func` of the first loop: the items put back, and the record pushed if any. */
  method ExposeItem(item: ImplItem) returns (items: seq<ImplItem>, record: seq<ExportMethod>)
    ensures items == ItemOutput(item) && record == ItemRecord(item)
  {
    match item {
      case MethodItem(m) =>
        var diags, rewritten, r := ExposeMethod(m);
        items := ErrorItems(diags) + [MethodItem(rewritten)];
        record := if r.Some? then [r.value] else [];
      case ErrorItem(_) =>
        items, record := [item], [];
      case OtherItem(_) =>
        items, record := [item], [];
    }
  }

  /** What the first loop has built: the new item list and `methods_to_export`. */
  datatype Pass = Pass(items: seq<ImplItem>, toExport: seq<ExportMethod>)

  function FirstPass(items: seq<ImplItem>): Pass {
    if items == [] then Pass([], [])
    else
      var p := FirstPass(items[..|items| - 1]);
      var last := items[|items| - 1];
      Pass(p.items + ItemOutput(last), p.toExport + ItemRecord(last))
  }

  lemma FirstPassSnoc(items: seq<ImplItem>)
    requires items != []
    ensures FirstPass(items).items == FirstPass(items[..|items| - 1]).items + ItemOutput(items[|items| - 1])
  {
  }

  // ---------------------------------------------------------------------------
  // Shape check and normalisation (methods.rs:362-428)

  predicate HasTypeParam(generics: seq<GenericParam>) {
    exists k :: 0 <= k < |generics| && generics[k].TypeParam?
  }

  predicate HasLifetimeParam(generics: seq<GenericParam>) {
    exists k :: 0 <= k < |generics| && generics[k].LifetimeParam?
  }

  predicate HasConstParam(generics: seq<GenericParam>) {
    exists k :: 0 <= k < |generics| && generics[k].ConstParam?
  }

  /**
    The one diagnostic a generic method gets, for the first kind present in the
    order type, lifetime, const; a method is accepted exactly when it has no
    generic parameter at all.
  */
  function ShapeError(generics: seq<GenericParam>): (r: Option<Message>)
    ensures r.None? <==> generics == []
    ensures r.Some? ==> r.value in {TypeParamsNotAllowed, LifetimeParamsNotAllowed, ConstParamsNotAllowed}
    ensures r == Some(TypeParamsNotAllowed) <==> HasTypeParam(generics)
    ensures r == Some(ConstParamsNotAllowed) ==> !HasTypeParam(generics) && !HasLifetimeParam(generics)
    ensures r == Some(LifetimeParamsNotAllowed) <==> !HasTypeParam(generics) && HasLifetimeParam(generics)
    ensures r == Some(ConstParamsNotAllowed) <==>
      !HasTypeParam(generics) && !HasLifetimeParam(generics) && HasConstParam(generics)
  {
    assert generics != [] ==> generics[0].TypeParam? || generics[0].LifetimeParam? || generics[0].ConstParam?;
    if HasTypeParam(generics) then Some(TypeParamsNotAllowed)
    else if HasLifetimeParam(generics) then Some(LifetimeParamsNotAllowed)
    else if HasConstParam(generics) then Some(ConstParamsNotAllowed)
    else None
  }

  /** `___unused_arg_{i}`. */
  function UnusedArgName(i: nat): (s: string)
    ensures |s| > 14 && s[..14] == "___unused_arg_" && s[14..] == Decimal(i)
  {
    "___unused_arg_" + Decimal(i)
  }

  /** Different positions get different names. */
  lemma UnusedArgNameInjective(i: nat, j: nat)
    ensures UnusedArgName(i) == UnusedArgName(j) ==> i == j
  {
    if UnusedArgName(i) == UnusedArgName(j) {
      assert Decimal(i) == UnusedArgName(i)[14..] == UnusedArgName(j)[14..] == Decimal(j);
      DecimalInjective(i, j);
    }
  }

  predicate IsWild(a: FnArg) {
    a.Typed? && a.pat.PatWild?
  }

  predicate IsMutIdent(a: FnArg) {
    a.Typed? && a.pat.PatIdent? && a.pat.mutable
  }

  /**
    The parameter at index `i` after normalisation: a wildcard becomes a plain
    identifier named after its position (at the method name's span), `mut` is
    dropped from identifier patterns (keeping `ref` and `@` sub-patterns), and
    receivers and all other patterns are untouched.
  */
  function NormalizeArg(i: nat, arg: FnArg, span: Span): (r: FnArg)
    ensures r.Receiver? == arg.Receiver? && r.attrs == arg.attrs && r.span == arg.span
    ensures !IsWild(r) && !IsMutIdent(r)
    ensures arg.Receiver? ==> r == arg
    ensures arg.Typed? ==> r.ty == arg.ty
    ensures IsWild(arg) ==> r.pat == PatIdent(false, false, Ident(UnusedArgName(i), span), None)
    ensures arg.Typed? && arg.pat.PatIdent? ==> r.pat == arg.pat.(mutable := false)
    ensures arg.Typed? && arg.pat.PatOther? ==> r == arg
  {
    match arg
    case Receiver(_, _, _, _) => arg
    case Typed(attrs, pat, ty, sp) =>
      match pat
      case PatWild => Typed(attrs, PatIdent(false, false, Ident(UnusedArgName(i), span), None), ty, sp)
      case PatIdent(byRef, _, ident, subpat) => Typed(attrs, PatIdent(byRef, false, ident, subpat), ty, sp)
      case PatOther(_) => arg
  }

  /** The exported copy of a signature: every parameter normalised, `unsafe` removed. */
  function Normalized(sig: Signature): (r: Signature)
    ensures |r.inputs| == |sig.inputs| && !r.unsafety
    ensures r == sig.(inputs := r.inputs, unsafety := false)
  {
    var inputs := seq(|sig.inputs|, k requires 0 <= k < |sig.inputs| => NormalizeArg(k, sig.inputs[k], sig.ident.span));
    sig.(inputs := inputs, unsafety := false)
  }

  /** The `for_each` over `method.sig.inputs`, rewriting patterns in place, then `unsafety = None`. */
  method NormalizeSig(sig: Signature) returns (sig': Signature)
    ensures sig' == Normalized(sig)
  {
    var span := sig.ident.span;
    var inputs := sig.inputs;
    for i := 0 to |inputs|
      invariant |inputs| == |sig.inputs|
      invariant forall k :: 0 <= k < i ==> inputs[k] == NormalizeArg(k, sig.inputs[k], span)
      invariant forall k :: i <= k < |inputs| ==> inputs[k] == sig.inputs[k]
    {
      match inputs[i] {
        case Typed(attrs, pat, ty, sp) =>
          match pat {
            case PatWild =>
              var name := UnusedArgName(i);
              inputs := inputs[i := Typed(attrs, PatIdent(false, false, Ident(name, span), None), ty, sp)];
            case PatIdent(byRef, _, ident, subpat) =>
              inputs := inputs[i := Typed(attrs, PatIdent(byRef, false, ident, subpat), ty, sp)];
            case PatOther(_) =>
          }
        case Receiver(_, _, _, _) =>
      }
    }
    sig' := sig.(inputs := inputs, unsafety := false);
  }

  /** Normalising twice is normalising once. */
  lemma NormalizedIdempotent(sig: Signature)
    ensures Normalized(Normalized(sig)) == Normalized(sig)
  {
    var n := Normalized(sig);
    var nn := Normalized(n);
    forall k | 0 <= k < |n.inputs|
      ensures nn.inputs[k] == n.inputs[k]
    {
      var a := n.inputs[k];
      assert !IsWild(a) && !IsMutIdent(a);
      if a.Typed? && a.pat.PatIdent? {
        assert a.pat == a.pat.(mutable := false);
      }
    }
  }

  /** The identifiers given to two different wildcards are different. */
  lemma WildNamesDistinct(sig: Signature, i: nat, j: nat)
    requires i < j < |sig.inputs| && IsWild(sig.inputs[i]) && IsWild(sig.inputs[j])
    ensures Normalized(sig).inputs[i].pat.ident.name != Normalized(sig).inputs[j].pat.ident.name
  {
    UnusedArgNameInjective(i, j);
  }

  /** A method that passed the shape check, as recorded in `exported.methods`. */
  function Accept(em: ExportMethod): ExportMethod {
    em.(sig := Normalized(em.sig))
  }

  /** What the second loop has built: the item list, extended with errors, and `exported.methods`. */
  datatype Shaped = Shaped(items: seq<ImplItem>, methods: seq<ExportMethod>)

  function ShapeStep(em: ExportMethod, st: Shaped): Shaped {
    match ShapeError(em.sig.generics)
    case Some(msg) => st.(items := st.items + [ErrorItem(Diag(em.sig.ident.span, msg))])
    case None => st.(methods := st.methods + [Accept(em)])
  }

  function ShapeFold(records: seq<ExportMethod>, st: Shaped): Shaped {
    if records == [] then st
    else ShapeStep(records[|records| - 1], ShapeFold(records[..|records| - 1], st))
  }

  // ---------------------------------------------------------------------------
  // The whole pass

  function ExposeSpec(ast: ItemImpl): (ItemImpl, ClassMethodExport) {
    var p := FirstPass(ast.items);
    var s := ShapeFold(p.toExport, Shaped(p.items, []));
    (ast.(items := s.items), ClassMethodExport(ast.selfTy, s.methods))
  }

  /** The first loop: every item put back in order, the records of the exported methods collected. */
  method ExtractItems(items: seq<ImplItem>) returns (newItems: seq<ImplItem>, methodsToExport: seq<ExportMethod>)
    ensures Pass(newItems, methodsToExport) == FirstPass(items)
  {
    newItems, methodsToExport := [], [];
    for i := 0 to |items|
      invariant FirstPass(items[..i]) == Pass(newItems, methodsToExport)
    {
      assert items[..i + 1][..i] == items[..i];
      var out, record := ExposeItem(items[i]);
      methodsToExport := methodsToExport + record;
      newItems := newItems + out;
    }
    assert items[..|items|] == items;
  }

  /** The second loop: reject generic methods with a diagnostic, normalise and keep the others. */
  method CheckShapes(records: seq<ExportMethod>, items: seq<ImplItem>)
    returns (items': seq<ImplItem>, methods: seq<ExportMethod>)
    ensures Shaped(items', methods) == ShapeFold(records, Shaped(items, []))
  {
    items', methods := items, [];
    for j := 0 to |records|
      invariant ShapeFold(records[..j], Shaped(items, [])) == Shaped(items', methods)
    {
      assert records[..j + 1][..j] == records[..j];
      var em := records[j];
      var span := em.sig.ident.span;
      var err := ShapeError(em.sig.generics);
      if err.Some? {
        items' := items' + [ErrorItem(Diag(span, err.value))];
        continue;
      }
      var sig := NormalizeSig(em.sig);
      methods := methods + [em.(sig := sig)];
    }
    assert records[..|records|] == records;
  }

  /** The pass: items cleared and extended by the first loop and the shape check, export list filled. */
  method Expose(ast: ItemImpl) returns (result: ItemImpl, exported: ClassMethodExport)
    ensures (result, exported) == ExposeSpec(ast)
  {
    result := ast.(items := []);
    var items, methodsToExport := ExtractItems(ast.items);
    result := result.(items := result.items + items);
    assert result.items == items;
    var methods;
    items, methods := CheckShapes(methodsToExport, result.items);
    result := result.(items := items);
    exported := ClassMethodExport(ast.selfTy, methods);
  }

  // ---------------------------------------------------------------------------
  // Properties of the pass

  /** The records of the exported methods, in declaration order, read off directly. */
  function ExportedRecords(items: seq<ImplItem>): seq<ExportMethod> {
    if items == [] then []
    else
      var last := items[|items| - 1];
      ExportedRecords(items[..|items| - 1]) +
        (if last.MethodItem? && HasExportAttr(last.m.attrs) then [RecordOf(last.m)] else [])
  }

  /** `methods_to_export` holds one record per method with an export attribute, in order. */
  lemma {:induction false} FirstPassRecords(items: seq<ImplItem>)
    ensures FirstPass(items).toExport == ExportedRecords(items)
  {
    if items != [] {
      FirstPassRecords(items[..|items| - 1]);
      var last := items[|items| - 1];
      if last.MethodItem? {
        MethodClosedForm(last.m);
      }
    }
  }

  /** The items that are not inserted diagnostics. */
  function NonErrorItems(items: seq<ImplItem>): seq<ImplItem> {
    if items == [] then []
    else
      NonErrorItems(items[..|items| - 1]) +
        (if items[|items| - 1].ErrorItem? then [] else [items[|items| - 1]])
  }

  lemma {:induction false} NonErrorItemsAppend(a: seq<ImplItem>, b: seq<ImplItem>)
    ensures NonErrorItems(a + b) == NonErrorItems(a) + NonErrorItems(b)
  {
    if b == [] {
      assert a + b == a;
    } else {
      assert (a + b)[..|a + b| - 1] == a + b[..|b| - 1];
      NonErrorItemsAppend(a, b[..|b| - 1]);
    }
  }

  lemma {:induction false} NonErrorItemsOfErrors(diags: seq<Diag>)
    ensures NonErrorItems(ErrorItems(diags)) == []
  {
    if diags != [] {
      assert ErrorItems(diags)[..|diags| - 1] == ErrorItems(diags[..|diags| - 1]);
      NonErrorItemsOfErrors(diags[..|diags| - 1]);
    }
  }

  function CleanedItem(item: ImplItem): ImplItem {
    if item.MethodItem? then MethodItem(CleanedMethod(item.m)) else item
  }

  function CleanedItems(items: seq<ImplItem>): (r: seq<ImplItem>)
    ensures |r| == |items|
    ensures forall k :: 0 <= k < |items| ==> r[k] == CleanedItem(items[k])
  {
    if items == [] then []
    else
      var init := items[..|items| - 1];
      assert forall k :: 0 <= k < |init| ==> init[k] == items[k];
      CleanedItems(init) + [CleanedItem(items[|items| - 1])]
  }

  /** Of what one item is replaced by, only the cleaned item itself is not a diagnostic. */
  lemma ItemOutputNonErrors(item: ImplItem)
    requires !item.ErrorItem?
    ensures NonErrorItems(ItemOutput(item)) == [CleanedItem(item)]
  {
    if item.MethodItem? {
      var o := ProcessMethod(item.m);
      MethodClosedForm(item.m);
      NonErrorItemsAppend(ErrorItems(o.diags), [MethodItem(o.rewritten)]);
      NonErrorItemsOfErrors(o.diags);
      assert NonErrorItems([MethodItem(o.rewritten)]) == [MethodItem(o.rewritten)];
    } else {
      assert NonErrorItems([item]) == [item];
    }
  }

  /**
    Take away the inserted diagnostics and what is left is the input, item for
    item in order, each method without its export markers (and without the
    `#[opt]` markers when exported) and every other item unchanged.
  */
  lemma {:induction false} ItemsRestored(items: seq<ImplItem>)
    requires forall k :: 0 <= k < |items| ==> !items[k].ErrorItem?
    ensures NonErrorItems(FirstPass(items).items) == CleanedItems(items)
  {
    if items != [] {
      var init := items[..|items| - 1];
      var last := items[|items| - 1];
      assert forall k :: 0 <= k < |init| ==> init[k] == items[k];
      ItemsRestored(init);
      FirstPassSnoc(items);
      NonErrorItemsAppend(FirstPass(init).items, ItemOutput(last));
      ItemOutputNonErrors(last);
    }
  }

  /**
    Each input method is replaced by its own diagnostics followed by the method
    itself; every other item is kept as it is.
  */
  lemma ItemPlacement(item: ImplItem)
    ensures var out := ItemOutput(item);
      && |out| >= 1 && out[|out| - 1] == CleanedItem(item)
      && (forall k :: 0 <= k < |out| - 1 ==> item.MethodItem? && out[k] == ErrorItem(ProcessMethod(item.m).diags[k]))
      && out == (if item.MethodItem? then ErrorItems(ProcessMethod(item.m).diags) else []) + [CleanedItem(item)]
  {
    if item.MethodItem? {
      MethodClosedForm(item.m);
    }
  }

  predicate IsGenericsMessage(m: Message) {
    m.TypeParamsNotAllowed? || m.LifetimeParamsNotAllowed? || m.ConstParamsNotAllowed?
  }

  /** The records that pass the shape check, normalised, in order. */
  function AcceptedRecords(records: seq<ExportMethod>): seq<ExportMethod> {
    if records == [] then []
    else
      var last := records[|records| - 1];
      AcceptedRecords(records[..|records| - 1]) + (if last.sig.generics == [] then [Accept(last)] else [])
  }

  /** How many records the shape check rejects. */
  function RejectedCount(records: seq<ExportMethod>): nat {
    if records == [] then 0
    else RejectedCount(records[..|records| - 1]) + (if records[|records| - 1].sig.generics == [] then 0 else 1)
  }

  /**
    The diagnostics the shape check appends: for each rejected record, in
    order, one error item at its method name for the first generic kind it
    has.
  */
  function RejectedItems(records: seq<ExportMethod>): seq<ImplItem> {
    if records == [] then []
    else
      var last := records[|records| - 1];
      RejectedItems(records[..|records| - 1])
        + (if last.sig.generics == [] then [] else [ErrorItem(Diag(last.sig.ident.span, ShapeError(last.sig.generics).value))])
  }

  /** One appended item per rejected record, each a generics diagnostic. */
  lemma {:induction false} RejectedItemsFacts(records: seq<ExportMethod>)
    ensures |RejectedItems(records)| == RejectedCount(records)
    ensures forall k :: 0 <= k < |RejectedItems(records)| ==>
      RejectedItems(records)[k].ErrorItem? && IsGenericsMessage(RejectedItems(records)[k].diag.msg)
  {
    if records != [] {
      RejectedItemsFacts(records[..|records| - 1]);
    }
  }

  /**
    The shape check keeps the accepted records, normalised and in order, and
    appends after what is there, for each rejected record in order, its own
    generics diagnostic; accepted plus rejected is every record.
  */
  lemma {:induction false} ShapeFoldFacts(records: seq<ExportMethod>, st: Shaped)
    ensures var s := ShapeFold(records, st);
      && s.methods == st.methods + AcceptedRecords(records)
      && s.items == st.items + RejectedItems(records)
      && |s.items| == |st.items| + RejectedCount(records)
      && s.items[..|st.items|] == st.items
      && (forall k :: |st.items| <= k < |s.items| ==>
            s.items[k].ErrorItem? && IsGenericsMessage(s.items[k].diag.msg))
      && |AcceptedRecords(records)| + RejectedCount(records) == |records|
  {
    if records != [] {
      ShapeFoldFacts(records[..|records| - 1], st);
    }
    RejectedItemsFacts(records);
    var s := ShapeFold(records, st);
    forall k | |st.items| <= k < |s.items|
      ensures s.items[k].ErrorItem? && IsGenericsMessage(s.items[k].diag.msg)
    {
      assert s.items[k] == RejectedItems(records)[k - |st.items|];
    }
  }

  /** The optional count of a record never exceeds the parameters after the receiver and the owner. */
  predicate BoundOk(em: ExportMethod) {
    em.args.optionalArgs.Some? ==> 1 <= em.args.optionalArgs.value && em.args.optionalArgs.value + 2 <= |em.sig.inputs|
  }

  /** What every entry of `export.methods` satisfies. */
  predicate Registrable(em: ExportMethod) {
    && em.sig.generics == []
    && !em.sig.unsafety
    && (forall k :: 0 <= k < |em.sig.inputs| ==> !IsWild(em.sig.inputs[k]) && !IsMutIdent(em.sig.inputs[k]))
    && BoundOk(em)
  }

  lemma {:induction false} ExportedRecordsBound(items: seq<ImplItem>)
    ensures forall k :: 0 <= k < |ExportedRecords(items)| ==> BoundOk(ExportedRecords(items)[k])
  {
    if items != [] {
      ExportedRecordsBound(items[..|items| - 1]);
    }
  }

  lemma {:induction false} AcceptedRegistrable(records: seq<ExportMethod>)
    requires forall k :: 0 <= k < |records| ==> BoundOk(records[k])
    ensures forall k :: 0 <= k < |AcceptedRecords(records)| ==> Registrable(AcceptedRecords(records)[k])
  {
    if records != [] {
      var init := records[..|records| - 1];
      assert forall k :: 0 <= k < |init| ==> init[k] == records[k];
      AcceptedRegistrable(init);
    }
  }

  /**
    The whole pass: the impl block keeps its header and type and ends with one
    generics diagnostic per rejected exported method, in order, each at that
    method's name; `export.methods` holds, in declaration order, the records
    of the exported methods that have no generic parameter, normalised; and
    every one of them is registrable.
  */
  lemma ExposeFacts(ast: ItemImpl)
    ensures var (result, exported) := ExposeSpec(ast); var p := FirstPass(ast.items);
      && result.header == ast.header && result.selfTy == ast.selfTy && exported.classTy == ast.selfTy
      && exported.methods == AcceptedRecords(ExportedRecords(ast.items))
      && result.items == p.items + RejectedItems(ExportedRecords(ast.items))
      && |result.items| == |p.items| + RejectedCount(ExportedRecords(ast.items))
      && result.items[..|p.items|] == p.items
      && (forall k :: |p.items| <= k < |result.items| ==>
            result.items[k].ErrorItem? && IsGenericsMessage(result.items[k].diag.msg))
      && (forall k :: 0 <= k < |exported.methods| ==> Registrable(exported.methods[k]))
  {
    var p := FirstPass(ast.items);
    FirstPassRecords(ast.items);
    ShapeFoldFacts(p.toExport, Shaped(p.items, []));
    ExportedRecordsBound(ast.items);
    AcceptedRegistrable(p.toExport);
  }
}
