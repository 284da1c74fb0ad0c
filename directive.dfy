/**
  The `#[export]` attribute handling of `impl_gdnative_expose`
  (gdnative-derive/src/methods.rs:185-300): the closure passed to
  `method.attrs.retain`, which drops every export attribute, parses its
  payload into the shared `rpc` slot and pushes diagnostics onto the
  method's error list.

  Each loop of the source is a method here, proved equal to a fold over a
  prefix of its input (`Fold(s) == Step(last, Fold(init))`), and the lemmas
  below give those folds closed forms.
*/
module Directive {
  import opened Syntax
  import opened Exports

  function LastSegment(p: Path): Option<Ident> {
    if |p.segments| == 0 then None else Some(p.segments[|p.segments| - 1])
  }

  /** An outer attribute whose path ends in `export`, whatever qualification precedes it. */
  predicate IsExportAttr(a: Attr) {
    a.style == Outer && LastSegment(a.path).Some? && LastSegment(a.path).value.name == "export"
  }

  // ---------------------------------------------------------------------------
  // The list filter (`filter_map` over the parenthesised list)

  datatype Listed = Listed(pairs: seq<NameValue>, errors: seq<Diag>)

  /**
    The list's `name = value` elements in order, and one "unexpected argument
    in list" diagnostic per other element, in order.
  */
  function SplitList(nested: seq<NestedMeta>): (r: Listed)
    ensures |r.pairs| + |r.errors| == |nested|
    ensures forall k :: 0 <= k < |r.errors| ==> r.errors[k].msg.UnexpectedListArgument?
  {
    if nested == [] then Listed([], [])
    else
      var init := nested[..|nested| - 1];
      var r := SplitList(init);
      assert nested == init + [nested[|nested| - 1]];
      match nested[|nested| - 1]
      case NestedNameValue(p) => r.(pairs := r.pairs + [p])
      case NestedOther(t, sp) => r.(errors := r.errors + [Diag(sp, UnexpectedListArgument(t))])
  }

  /** The split of a concatenation is the two splits joined, pairs with pairs and diagnostics with diagnostics. */
  lemma {:induction false} SplitListAppend(a: seq<NestedMeta>, b: seq<NestedMeta>)
    ensures SplitList(a + b) == Listed(SplitList(a).pairs + SplitList(b).pairs, SplitList(a).errors + SplitList(b).errors)
  {
    if b == [] {
      assert a + b == a;
    } else {
      var init := b[..|b| - 1];
      SplitListAppend(a, init);
      assert (a + b)[..|a + b| - 1] == a + init;
      assert (a + b)[|a + b| - 1] == b[|b| - 1];
    }
  }

  /**
    One element: a `name = value` element becomes that pair, any other
    becomes one "unexpected argument in list" diagnostic carrying its own
    tokens at its own span.
  */
  lemma SplitListElement(e: NestedMeta)
    ensures SplitList([e]) == match e
      case NestedNameValue(p) => Listed([p], [])
      case NestedOther(t, sp) => Listed([], [Diag(sp, UnexpectedListArgument(t))])
  {
    assert [e][..0] == [];
  }

  method CollectPairs(nested: seq<NestedMeta>, errors: seq<Diag>)
    returns (pairs: seq<NameValue>, errors': seq<Diag>)
    ensures pairs == SplitList(nested).pairs
    ensures errors' == errors + SplitList(nested).errors
  {
    pairs, errors' := [], errors;
    for i := 0 to |nested|
      invariant pairs == SplitList(nested[..i]).pairs
      invariant errors' == errors + SplitList(nested[..i]).errors
    {
      assert nested[..i + 1][..i] == nested[..i];
      match nested[i] {
        case NestedNameValue(p) =>
          pairs := pairs + [p];
        case NestedOther(t, sp) =>
          errors' := errors' + [Diag(sp, UnexpectedListArgument(t))];
      }
    }
    assert nested[..|nested|] == nested;
  }

  // ---------------------------------------------------------------------------
  // The pair loop (`for MetaNameValue { path, lit, .. } in pairs`)

  /** A pair that ends the loop: an empty path, or a key whose last segment is `rpc`. */
  predicate Stops(p: NameValue) {
    LastSegment(p.path).None? || LastSegment(p.path).value.name == "rpc"
  }

  /** The mode a pair selects: `rpc = "<one of the seven names>"`. */
  function SelectedMode(p: NameValue): Option<RpcMode> {
    if LastSegment(p.path).Some? && LastSegment(p.path).value.name == "rpc" && p.lit.LitStr?
    then ParseRpcMode(p.lit.value)
    else None
  }

  /** The "unknown option" diagnostic of a key that is not `rpc`. */
  function UnknownOptionDiag(p: NameValue): Diag
    requires LastSegment(p.path).Some?
  {
    var last := LastSegment(p.path).value;
    Diag(last.span, UnknownOption(last.name))
  }

  /** The `rpc` slot and the error list the loop updates. */
  datatype PairScan = PairScan(rpc: Option<RpcMode>, errors: seq<Diag>)

  /** After one pair: go on with the next (`Continue`) or leave the closure (`Stop`). */
  datatype PairOutcome = Continue(scan: PairScan) | Stop(scan: PairScan)

  function PairStep(p: NameValue, st: PairScan): (r: PairOutcome)
    ensures r.Stop? <==> Stops(p)
    ensures r.scan.rpc == if SelectedMode(p).Some? then SelectedMode(p) else st.rpc
    ensures |r.scan.errors| == |st.errors| + (if SelectedMode(p).Some? && st.rpc.None? then 0 else 1)
    ensures r.scan.errors[..|st.errors|] == st.errors
    ensures !Stops(p) ==> r == Continue(st.(errors := st.errors + [UnknownOptionDiag(p)]))
    ensures |r.scan.errors| > |st.errors| ==>
      (r.scan.errors[|st.errors|].msg == RpcSetTwice <==> SelectedMode(p).Some? && st.rpc.Some?)
    ensures LastSegment(p.path).None? ==> r == Stop(st.(errors := st.errors + [Diag(p.path.span, EmptyPath)]))
    ensures Stops(p) && LastSegment(p.path).Some? ==>
      var last := LastSegment(p.path).value;
      && (p.lit.LitOther? ==> r == Stop(st.(errors := st.errors + [Diag(last.span, RpcValueNotStr)])))
      && (p.lit.LitStr? && ParseRpcMode(p.lit.value).None? ==>
            r == Stop(st.(errors := st.errors + [Diag(last.span, UnknownRpcValue(p.lit.value))])))
      && (SelectedMode(p).Some? ==>
            r == Stop(PairScan(SelectedMode(p),
                               st.errors + (if st.rpc.Some? then [Diag(last.span, RpcSetTwice)] else []))))
  {
    match LastSegment(p.path)
    case None => Stop(st.(errors := st.errors + [Diag(p.path.span, EmptyPath)]))
    case Some(last) =>
      if last.name == "rpc" then
        match p.lit
        case LitOther(_) => Stop(st.(errors := st.errors + [Diag(last.span, RpcValueNotStr)]))
        case LitStr(v) =>
          match ParseRpcMode(v)
          case Some(mode) =>
            Stop(PairScan(Some(mode),
                          if st.rpc.Some? then st.errors + [Diag(last.span, RpcSetTwice)] else st.errors))
          case None => Stop(st.(errors := st.errors + [Diag(last.span, UnknownRpcValue(v))]))
      else
        Continue(st.(errors := st.errors + [Diag(last.span, UnknownOption(last.name))]))
  }

  /** The loop over `pairs`, one `PairStep` per pair until one stops. */
  function PairsFold(pairs: seq<NameValue>, st: PairScan): PairOutcome {
    if pairs == [] then Continue(st)
    else
      match PairsFold(pairs[..|pairs| - 1], st)
      case Stop(s) => Stop(s)
      case Continue(s) => PairStep(pairs[|pairs| - 1], s)
  }

  method ParsePairs(pairs: seq<NameValue>, rpc: Option<RpcMode>, errors: seq<Diag>)
    returns (rpc': Option<RpcMode>, errors': seq<Diag>)
    ensures PairScan(rpc', errors') == PairsFold(pairs, PairScan(rpc, errors)).scan
  {
    ghost var st0 := PairScan(rpc, errors);
    rpc', errors' := rpc, errors;
    var i := 0;
    while i < |pairs|
      invariant i <= |pairs|
      invariant PairsFold(pairs[..i], st0) == Continue(PairScan(rpc', errors'))
    {
      assert pairs[..i + 1][..i] == pairs[..i];
      var p := pairs[i];
      if Stops(p) {
        StopAt(pairs, i, st0);
      }
      if |p.path.segments| == 0 {
        errors' := errors' + [Diag(p.path.span, EmptyPath)];
        return;
      }
      var last := p.path.segments[|p.path.segments| - 1];
      if last.name == "rpc" {
        match p.lit {
          case LitOther(_) =>
            errors' := errors' + [Diag(last.span, RpcValueNotStr)];
            return;
          case LitStr(value) =>
            var mode := ParseRpcMode(value);
            if mode.Some? {
              var previous := rpc';
              rpc' := mode;
              if previous.Some? {
                errors' := errors' + [Diag(last.span, RpcSetTwice)];
                return;
              }
            } else {
              errors' := errors' + [Diag(last.span, UnknownRpcValue(value))];
              return;
            }
        }
        return;
      }
      errors' := errors' + [Diag(last.span, UnknownOption(last.name))];
      i := i + 1;
    }
    assert pairs[..i] == pairs;
  }

  /** Once a pair has stopped the loop, no later pair is inspected. */
  lemma {:induction false} StopIsFinal(pairs: seq<NameValue>, more: seq<NameValue>, st: PairScan)
    requires PairsFold(pairs, st).Stop?
    ensures PairsFold(pairs + more, st) == PairsFold(pairs, st)
    decreases |more|
  {
    if more != [] {
      var init := more[..|more| - 1];
      StopIsFinal(pairs, init, st);
      var all := pairs + more;
      assert all[..|all| - 1] == pairs + init;
      assert PairsFold(all[..|all| - 1], st) == PairsFold(pairs, st);
      assert PairsFold(all, st) == PairsFold(pairs, st);
    } else {
      assert pairs + more == pairs;
    }
  }

  /** The loop's result is decided by the first pair that stops it. */
  lemma StopAt(pairs: seq<NameValue>, i: nat, st: PairScan)
    requires i < |pairs| && Stops(pairs[i])
    requires PairsFold(pairs[..i], st).Continue?
    ensures PairsFold(pairs, st) == PairStep(pairs[i], PairsFold(pairs[..i], st).scan)
  {
    assert pairs[..i + 1][..i] == pairs[..i];
    StopIsFinal(pairs[..i + 1], pairs[i + 1..], st);
    assert pairs[..i + 1] + pairs[i + 1..] == pairs;
  }

  /** Index of the first pair that stops the loop, or `|pairs|` if none does. */
  function FirstStop(pairs: seq<NameValue>): (k: nat)
    ensures k <= |pairs|
    ensures forall j :: 0 <= j < k ==> !Stops(pairs[j])
    ensures k < |pairs| ==> Stops(pairs[k])
  {
    if pairs == [] then 0
    else
      var k := FirstStop(pairs[..|pairs| - 1]);
      if k < |pairs| - 1 then k
      else if Stops(pairs[|pairs| - 1]) then |pairs| - 1
      else |pairs|
  }

  /** One "unknown option" diagnostic per pair, in order. */
  function UnknownOptionDiags(pairs: seq<NameValue>): (r: seq<Diag>)
    requires forall j :: 0 <= j < |pairs| ==> !Stops(pairs[j])
    ensures |r| == |pairs|
    ensures forall j :: 0 <= j < |pairs| ==> !Stops(pairs[j]) && r[j] == UnknownOptionDiag(pairs[j])
  {
    if pairs == [] then []
    else
      var last := pairs[|pairs| - 1];
      assert !Stops(last);
      assert LastSegment(last.path).Some?;
      UnknownOptionDiags(pairs[..|pairs| - 1]) + [UnknownOptionDiag(last)]
  }

  /**
    Every key before the first stopping pair adds exactly one "unknown option"
    diagnostic, in order, and leaves `rpc` alone; the first stopping pair, if
    any, is the last pair looked at.
  */
  lemma {:induction false} PairsFoldClosedForm(pairs: seq<NameValue>, st: PairScan)
    ensures var k := FirstStop(pairs);
      PairsFold(pairs, st) ==
        if k == |pairs| then Continue(PairScan(st.rpc, st.errors + UnknownOptionDiags(pairs)))
        else PairStep(pairs[k], PairScan(st.rpc, st.errors + UnknownOptionDiags(pairs[..k])))
  {
    if pairs != [] {
      var init := pairs[..|pairs| - 1];
      var x := pairs[|pairs| - 1];
      PairsFoldClosedForm(init, st);
      var k0 := FirstStop(init);
      if k0 < |init| {
        assert FirstStop(pairs) == k0;
        assert pairs[k0] == init[k0];
        assert pairs[..k0] == init[..k0];
        assert PairsFold(init, st).Stop?;
      } else {
        var s := PairScan(st.rpc, st.errors + UnknownOptionDiags(init));
        assert PairsFold(init, st) == Continue(s);
        assert PairsFold(pairs, st) == PairStep(x, s);
        if Stops(x) {
          assert FirstStop(pairs) == |init|;
          assert pairs[..|init|] == init;
        } else {
          assert FirstStop(pairs) == |pairs|;
          assert UnknownOptionDiags(pairs) == UnknownOptionDiags(init) + [UnknownOptionDiag(x)];
        }
      }
    }
  }

  /** The loop only ever appends diagnostics. */
  lemma {:induction false} PairsExtendErrors(pairs: seq<NameValue>, st: PairScan)
    ensures var e := PairsFold(pairs, st).scan.errors;
      |e| >= |st.errors| && e[..|st.errors|] == st.errors
  {
    if pairs != [] {
      PairsExtendErrors(pairs[..|pairs| - 1], st);
    }
  }

  /** How many diagnostics say that the rpc mode was set more than once. */
  function CountSetTwice(errors: seq<Diag>): nat {
    if errors == [] then 0
    else CountSetTwice(errors[..|errors| - 1]) + (if errors[|errors| - 1].msg == RpcSetTwice then 1 else 0)
  }

  lemma {:induction false} CountSetTwiceAppend(a: seq<Diag>, b: seq<Diag>)
    ensures CountSetTwice(a + b) == CountSetTwice(a) + CountSetTwice(b)
    decreases |b|
  {
    if b != [] {
      CountSetTwiceAppend(a, b[..|b| - 1]);
      var ab := a + b;
      assert ab[..|ab| - 1] == a + b[..|b| - 1];
      assert ab[|ab| - 1] == b[|b| - 1];
    } else {
      assert a + b == a;
    }
  }

  lemma {:induction false} CountSetTwiceNone(errors: seq<Diag>)
    requires forall k :: 0 <= k < |errors| ==> errors[k].msg != RpcSetTwice
    ensures CountSetTwice(errors) == 0
  {
    if errors != [] {
      CountSetTwiceNone(errors[..|errors| - 1]);
    }
  }

  /** One pair adds a "set more than once" diagnostic exactly when it selects a mode over a set one. */
  lemma PairStepCount(p: NameValue, sc: PairScan)
    ensures CountSetTwice(PairStep(p, sc).scan.errors) ==
      CountSetTwice(sc.errors) + (if SelectedMode(p).Some? && sc.rpc.Some? then 1 else 0)
  {
    var e := PairStep(p, sc).scan.errors;
    var n := |sc.errors|;
    assert e == sc.errors + e[n..] by {
      assert e[..n] == sc.errors;
    }
    CountSetTwiceAppend(sc.errors, e[n..]);
    if |e| > n {
      assert e[n..] == [e[n]];
      assert [e[n]][..0] == [];
    } else {
      assert e[n..] == [];
    }
  }

  /** Unknown-option diagnostics never count as "set more than once". */
  lemma UnknownOptionsCount(errors: seq<Diag>, pairs: seq<NameValue>)
    requires forall j :: 0 <= j < |pairs| ==> !Stops(pairs[j])
    ensures CountSetTwice(errors + UnknownOptionDiags(pairs)) == CountSetTwice(errors)
  {
    CountSetTwiceAppend(errors, UnknownOptionDiags(pairs));
    CountSetTwiceNone(UnknownOptionDiags(pairs));
  }

  /**
    The loop leaves `rpc` alone unless its first stopping pair selects a
    valid mode, which then replaces the old value; it reports "set more than
    once" exactly when such a pair meets an `rpc` that was already set.
  */
  lemma PairsRpc(pairs: seq<NameValue>, st: PairScan)
    ensures var k := FirstStop(pairs); var r := PairsFold(pairs, st);
      var selected := if k < |pairs| then SelectedMode(pairs[k]) else None;
      && r.scan.rpc == (if selected.Some? then selected else st.rpc)
      && CountSetTwice(r.scan.errors) ==
         CountSetTwice(st.errors) + (if selected.Some? && st.rpc.Some? then 1 else 0)
  {
    var k := FirstStop(pairs);
    PairsFoldClosedForm(pairs, st);
    if k == |pairs| {
      UnknownOptionsCount(st.errors, pairs);
    } else {
      UnknownOptionsCount(st.errors, pairs[..k]);
      PairStepCount(pairs[k], PairScan(st.rpc, st.errors + UnknownOptionDiags(pairs[..k])));
    }
  }

  // ---------------------------------------------------------------------------
  // One attribute (the closure passed to `method.attrs.retain`)

  /** What the closure shares across the attributes of one method. */
  datatype Directive = Directive(exportArgs: Option<ExportArgs>, rpc: Option<RpcMode>, errors: seq<Diag>)

  /** The pairs the loop walks for an export attribute: the list's name/value elements, or the single pair. */
  function AttrPairs(a: Attr): seq<NameValue> {
    if !IsExportAttr(a) then []
    else
      match a.tokens
      case Parsed(MetaList(nested)) => SplitList(nested).pairs
      case Parsed(MetaNameValue(lit)) => [NameValue(a.path, lit)]
      case _ => []
  }

  function ApplyPairs(pairs: seq<NameValue>, d: Directive): Directive {
    var s := PairsFold(pairs, PairScan(d.rpc, d.errors)).scan;
    d.(rpc := s.rpc, errors := s.errors)
  }

  /** What one attribute does to the shared state. */
  function AttrEffect(a: Attr, d: Directive): Directive {
    if !IsExportAttr(a) then d
    else
      var d := d.(exportArgs := Some(GetOr(d.exportArgs, DefaultExportArgs())));
      match a.tokens
      case NoTokens => d
      case Unparsable(text, sp) => d.(errors := d.errors + [Diag(sp, AttrParseError(text))])
      case Parsed(MetaPath(t, sp)) => d.(errors := d.errors + [Diag(sp, UnexpectedAttributeArgument(t))])
      case Parsed(MetaList(nested)) =>
        ApplyPairs(SplitList(nested).pairs, d.(errors := d.errors + SplitList(nested).errors))
      case Parsed(MetaNameValue(lit)) => ApplyPairs([NameValue(a.path, lit)], d)
  }

  /** The closure: `false` (drop) for every export attribute, `true` for everything else. */
  method ExportFilter(a: Attr, d: Directive) returns (keep: bool, d': Directive)
    ensures keep == !IsExportAttr(a)
    ensures d' == AttrEffect(a, d)
  {
    d' := d;
    if a.style == Outer {
      var lastSeg := LastSegment(a.path);
      if lastSeg.Some? && lastSeg.value.name == "export" {
        d' := d'.(exportArgs := Some(GetOr(d'.exportArgs, DefaultExportArgs())));
        match a.tokens {
          case NoTokens =>
          case Unparsable(text, sp) =>
            d' := d'.(errors := d'.errors + [Diag(sp, AttrParseError(text))]);
            return false, d';
          case Parsed(meta) =>
            var pairs: seq<NameValue>;
            match meta {
              case MetaList(nested) =>
                var errors;
                pairs, errors := CollectPairs(nested, d'.errors);
                d' := d'.(errors := errors);
              case MetaNameValue(lit) =>
                pairs := [NameValue(a.path, lit)];
              case MetaPath(t, sp) =>
                d' := d'.(errors := d'.errors + [Diag(sp, UnexpectedAttributeArgument(t))]);
                return false, d';
            }
            var rpc, errors := ParsePairs(pairs, d'.rpc, d'.errors);
            d' := d'.(rpc := rpc, errors := errors);
        }
        return false, d';
      }
    }
    keep := true;
  }

  /** The mode an attribute itself selects: its first stopping pair is a valid `rpc = "..."`. */
  function AttrRpc(a: Attr): Option<RpcMode> {
    var ps := AttrPairs(a);
    var k := FirstStop(ps);
    if k < |ps| then SelectedMode(ps[k]) else None
  }

  /** What walking `pairs` does to the shared state, in terms of the first stopping pair. */
  lemma ApplyPairsFacts(pairs: seq<NameValue>, d: Directive)
    ensures var r := ApplyPairs(pairs, d); var k := FirstStop(pairs);
      var selected := if k < |pairs| then SelectedMode(pairs[k]) else None;
      && r.exportArgs == d.exportArgs
      && r.rpc == (if selected.Some? then selected else d.rpc)
      && |r.errors| >= |d.errors| && r.errors[..|d.errors|] == d.errors
      && CountSetTwice(r.errors) ==
         CountSetTwice(d.errors) + (if selected.Some? && d.rpc.Some? then 1 else 0)
  {
    PairsRpc(pairs, PairScan(d.rpc, d.errors));
    PairsExtendErrors(pairs, PairScan(d.rpc, d.errors));
  }

  /** A diagnostic that is not "set more than once" adds nothing to the count. */
  lemma CountSetTwiceOther(errors: seq<Diag>, e: Diag)
    requires e.msg != RpcSetTwice
    ensures CountSetTwice(errors + [e]) == CountSetTwice(errors)
  {
    assert (errors + [e])[..|errors|] == errors;
  }

  /**
    One attribute: an export attribute installs default export arguments if
    none are there yet; it replaces `rpc` exactly when it selects a mode,
    reporting "set more than once" exactly when `rpc` was already set; errors
    are only ever appended; any other attribute changes nothing. What an export
    attribute appends depends on its payload: nothing without tokens, the
    parser's error for unparsable tokens, "unexpected attribute argument" for
    a bare path, the list's own diagnostics before those of its pairs, and for
    `#[export = lit]` one "unknown option" naming `export`, since that pair's
    key is the attribute's own path.
  */
  lemma AttrEffectFacts(a: Attr, d: Directive)
    ensures var r := AttrEffect(a, d);
      && r.exportArgs == (if IsExportAttr(a) then Some(GetOr(d.exportArgs, DefaultExportArgs())) else d.exportArgs)
      && r.rpc == (if AttrRpc(a).Some? then AttrRpc(a) else d.rpc)
      && |r.errors| >= |d.errors| && r.errors[..|d.errors|] == d.errors
      && CountSetTwice(r.errors) ==
         CountSetTwice(d.errors) + (if AttrRpc(a).Some? && d.rpc.Some? then 1 else 0)
      && (!IsExportAttr(a) ==> r == d)
      && (IsExportAttr(a) && a.tokens.NoTokens? ==> r.errors == d.errors)
      && (IsExportAttr(a) && a.tokens.Unparsable? ==>
            r.errors == d.errors + [Diag(a.tokens.span, AttrParseError(a.tokens.error))])
      && (IsExportAttr(a) && a.tokens.Parsed? && a.tokens.meta.MetaPath? ==>
            r.errors == d.errors + [Diag(a.tokens.meta.span, UnexpectedAttributeArgument(a.tokens.meta.tokens))])
      && (IsExportAttr(a) && a.tokens.Parsed? && a.tokens.meta.MetaList? ==>
            var pre := d.errors + SplitList(a.tokens.meta.nested).errors;
            |r.errors| >= |pre| && r.errors[..|pre|] == pre)
      && (IsExportAttr(a) && a.tokens.Parsed? && a.tokens.meta.MetaNameValue? ==>
            AttrRpc(a).None? &&
            r.errors == d.errors + [Diag(LastSegment(a.path).value.span, UnknownOption("export"))])
  {
    if IsExportAttr(a) {
      var d1 := d.(exportArgs := Some(GetOr(d.exportArgs, DefaultExportArgs())));
      match a.tokens
      case NoTokens =>
      case Unparsable(text, sp) =>
        CountSetTwiceOther(d.errors, Diag(sp, AttrParseError(text)));
      case Parsed(MetaPath(t, sp)) =>
        CountSetTwiceOther(d.errors, Diag(sp, UnexpectedAttributeArgument(t)));
      case Parsed(MetaList(nested)) =>
        var l := SplitList(nested);
        var d2 := d1.(errors := d.errors + l.errors);
        CountSetTwiceAppend(d.errors, l.errors);
        CountSetTwiceNone(l.errors);
        ApplyPairsFacts(l.pairs, d2);
        var e := ApplyPairs(l.pairs, d2).errors;
        assert e[..|d.errors|] == (e[..|d2.errors|])[..|d.errors|];
      case Parsed(MetaNameValue(lit)) =>
        var p := NameValue(a.path, lit);
        ApplyPairsFacts([p], d1);
        assert [p][..0] == [];
        assert PairsFold([p], PairScan(d1.rpc, d1.errors)) == PairStep(p, PairScan(d1.rpc, d1.errors));
    }
  }

  // ---------------------------------------------------------------------------
  // All attributes of one method (`method.attrs.retain(..)`)

  /** The attributes `retain` keeps: every one that is not an export attribute, in order. */
  function NonExportAttrs(attrs: seq<Attr>): (r: seq<Attr>)
    ensures |r| <= |attrs|
    ensures forall k :: 0 <= k < |r| ==> !IsExportAttr(r[k])
    ensures (forall k :: 0 <= k < |attrs| ==> !IsExportAttr(attrs[k])) ==> r == attrs
  {
    if attrs == [] then []
    else
      var init := attrs[..|attrs| - 1];
      var last := attrs[|attrs| - 1];
      assert attrs == init + [last];
      NonExportAttrs(init) + (if IsExportAttr(last) then [] else [last])
  }

  /** `retain` keeps order: the attributes kept from a concatenation are those kept from each part, joined. */
  lemma {:induction false} NonExportAttrsAppend(a: seq<Attr>, b: seq<Attr>)
    ensures NonExportAttrs(a + b) == NonExportAttrs(a) + NonExportAttrs(b)
  {
    if b == [] {
      assert a + b == a;
    } else {
      var init := b[..|b| - 1];
      NonExportAttrsAppend(a, init);
      assert (a + b)[..|a + b| - 1] == a + init;
      assert (a + b)[|a + b| - 1] == b[|b| - 1];
    }
  }

  /** One attribute is kept exactly when it is not an export attribute. */
  lemma NonExportAttrsSingle(a: Attr)
    ensures NonExportAttrs([a]) == if IsExportAttr(a) then [] else [a]
  {
    assert [a][..0] == [];
  }

  /** An attribute is kept exactly when it is one of the method's attributes and not an export attribute. */
  lemma {:induction false} NonExportAttrsMembers(attrs: seq<Attr>, a: Attr)
    ensures a in NonExportAttrs(attrs) <==> a in attrs && !IsExportAttr(a)
  {
    if attrs != [] {
      var init := attrs[..|attrs| - 1];
      NonExportAttrsMembers(init, a);
      assert attrs == init + [attrs[|attrs| - 1]];
    }
  }

  function AttrsFold(attrs: seq<Attr>, d: Directive): Directive {
    if attrs == [] then d
    else AttrEffect(attrs[|attrs| - 1], AttrsFold(attrs[..|attrs| - 1], d))
  }

  method RetainAttrs(attrs: seq<Attr>, d: Directive) returns (kept: seq<Attr>, d': Directive)
    ensures kept == NonExportAttrs(attrs)
    ensures d' == AttrsFold(attrs, d)
  {
    kept, d' := [], d;
    for i := 0 to |attrs|
      invariant kept == NonExportAttrs(attrs[..i])
      invariant d' == AttrsFold(attrs[..i], d)
    {
      assert attrs[..i + 1][..i] == attrs[..i];
      var keep;
      keep, d' := ExportFilter(attrs[i], d');
      if keep {
        kept := kept + [attrs[i]];
      }
    }
    assert attrs[..|attrs|] == attrs;
  }

  /** A method is exported exactly when one of its attributes is an export attribute. */
  lemma {:induction false} ExportDetected(attrs: seq<Attr>, d: Directive)
    ensures AttrsFold(attrs, d).exportArgs ==
      if exists k :: 0 <= k < |attrs| && IsExportAttr(attrs[k])
      then Some(GetOr(d.exportArgs, DefaultExportArgs()))
      else d.exportArgs
  {
    if attrs != [] {
      var init := attrs[..|attrs| - 1];
      ExportDetected(init, d);
      AttrEffectFacts(attrs[|attrs| - 1], AttrsFold(init, d));
      if exists k :: 0 <= k < |attrs| && IsExportAttr(attrs[k]) {
        var k :| 0 <= k < |attrs| && IsExportAttr(attrs[k]);
        if k < |init| {
          assert init[k] == attrs[k];
        }
      } else {
        assert forall k :: 0 <= k < |init| ==> init[k] == attrs[k];
      }
    }
  }

  /** Without an export attribute the closure leaves the shared state as it was. */
  lemma {:induction false} NoExportUnchanged(attrs: seq<Attr>, d: Directive)
    requires forall k :: 0 <= k < |attrs| ==> !IsExportAttr(attrs[k])
    ensures AttrsFold(attrs, d) == d
  {
    if attrs != [] {
      NoExportUnchanged(attrs[..|attrs| - 1], d);
      AttrEffectFacts(attrs[|attrs| - 1], AttrsFold(attrs[..|attrs| - 1], d));
    }
  }

  /** The modes the attributes select, one entry per attribute. */
  function AttrModes(attrs: seq<Attr>): (ms: seq<Option<RpcMode>>)
    ensures |ms| == |attrs|
    ensures forall j :: 0 <= j < |attrs| ==> ms[j] == AttrRpc(attrs[j])
  {
    seq(|attrs|, j requires 0 <= j < |attrs| => AttrRpc(attrs[j]))
  }

  /** The index of the last entry that is set, or -1. */
  function LastSet<T>(ms: seq<Option<T>>): (k: int)
    ensures -1 <= k < |ms|
    ensures k >= 0 ==> ms[k].Some?
    ensures forall j :: k < j < |ms| ==> ms[j].None?
  {
    if ms == [] then -1
    else if ms[|ms| - 1].Some? then |ms| - 1
    else LastSet(ms[..|ms| - 1])
  }

  /** How many attributes select a mode. */
  function SetterCount(attrs: seq<Attr>): nat {
    if attrs == [] then 0
    else SetterCount(attrs[..|attrs| - 1]) + (if AttrRpc(attrs[|attrs| - 1]).Some? then 1 else 0)
  }

  /** Last one wins: the final `rpc` is the mode of the last attribute that selects one, or the initial value. */
  lemma {:induction false} RpcLastWins(attrs: seq<Attr>, d: Directive)
    ensures AttrsFold(attrs, d).rpc ==
      (var ms := AttrModes(attrs); var k := LastSet(ms); if k < 0 then d.rpc else ms[k])
  {
    if attrs != [] {
      var init := attrs[..|attrs| - 1];
      RpcLastWins(init, d);
      AttrEffectFacts(attrs[|attrs| - 1], AttrsFold(init, d));
      assert AttrModes(attrs)[..|init|] == AttrModes(init);
    }
  }

  /**
    Starting from an unset `rpc`, n attributes that select a mode produce
    n - 1 "set more than once" diagnostics, and `rpc` ends up set exactly
    when n > 0.
  */
  lemma {:induction false} DuplicateRpcReported(attrs: seq<Attr>, d: Directive)
    ensures var r := AttrsFold(attrs, d); var n := SetterCount(attrs);
      && (r.rpc.Some? <==> d.rpc.Some? || n > 0)
      && CountSetTwice(r.errors) ==
         CountSetTwice(d.errors) + (if d.rpc.Some? then n else if n == 0 then 0 else n - 1)
  {
    if attrs != [] {
      var init := attrs[..|attrs| - 1];
      DuplicateRpcReported(init, d);
      AttrEffectFacts(attrs[|attrs| - 1], AttrsFold(init, d));
    }
  }
}
