/**
  The optional-parameter scan of `impl_gdnative_expose`
  (gdnative-derive/src/methods.rs:302-341), run on every method that carries
  an export attribute: each parameter loses its `#[opt]` attributes, and a
  counter that starts unset is bumped for every marked parameter after the
  receiver and the owner.
*/
module OptionalScan {
  import opened Syntax

  /** `attr.path.is_ident("opt")`: a path that is exactly the single identifier `opt`. */
  predicate IsOptAttr(a: Attr) {
    !a.path.global && |a.path.segments| == 1 && a.path.segments[0].name == "opt"
  }

  /** Whether one of the attributes is `#[opt]`. */
  predicate HasOptAttr(attrs: seq<Attr>) {
    exists k :: 0 <= k < |attrs| && IsOptAttr(attrs[k])
  }

  /** A parameter marked `#[opt]`. */
  predicate IsOptional(a: FnArg) {
    HasOptAttr(a.attrs)
  }

  /** The attributes the per-parameter `retain` keeps: all but the `#[opt]` ones, in order. */
  function NonOptAttrs(attrs: seq<Attr>): (r: seq<Attr>)
    ensures |r| <= |attrs|
    ensures forall k :: 0 <= k < |r| ==> !IsOptAttr(r[k])
    ensures !HasOptAttr(attrs) ==> r == attrs
  {
    if attrs == [] then []
    else
      var init := attrs[..|attrs| - 1];
      var last := attrs[|attrs| - 1];
      assert attrs == init + [last];
      assert !HasOptAttr(attrs) ==> !HasOptAttr(init) by {
        if HasOptAttr(init) {
          var k :| 0 <= k < |init| && IsOptAttr(init[k]);
          assert attrs[k] == init[k];
        }
      }
      NonOptAttrs(init) + (if IsOptAttr(last) then [] else [last])
  }

  /** An attribute is kept exactly when it is one of the parameter's attributes and not `#[opt]`. */
  lemma {:induction false} NonOptAttrsMembers(attrs: seq<Attr>, a: Attr)
    ensures a in NonOptAttrs(attrs) <==> a in attrs && !IsOptAttr(a)
  {
    if attrs != [] {
      var init := attrs[..|attrs| - 1];
      NonOptAttrsMembers(init, a);
      assert attrs == init + [attrs[|attrs| - 1]];
    }
  }

  /** `retain` keeps order: the attributes kept from a concatenation are those kept from each part, joined. */
  lemma {:induction false} NonOptAttrsAppend(a: seq<Attr>, b: seq<Attr>)
    ensures NonOptAttrs(a + b) == NonOptAttrs(a) + NonOptAttrs(b)
  {
    if b == [] {
      assert a + b == a;
    } else {
      var init := b[..|b| - 1];
      NonOptAttrsAppend(a, init);
      assert (a + b)[..|a + b| - 1] == a + init;
      assert (a + b)[|a + b| - 1] == b[|b| - 1];
    }
  }

  /** One attribute is kept exactly when it is not `#[opt]`. */
  lemma NonOptAttrsSingle(a: Attr)
    ensures NonOptAttrs([a]) == if IsOptAttr(a) then [] else [a]
  {
    assert [a][..0] == [];
  }

  lemma HasOptAttrSnoc(init: seq<Attr>, a: Attr)
    ensures HasOptAttr(init + [a]) <==> HasOptAttr(init) || IsOptAttr(a)
  {
    var attrs := init + [a];
    assert attrs[|init|] == a;
    if HasOptAttr(init) {
      var k :| 0 <= k < |init| && IsOptAttr(init[k]);
      assert attrs[k] == init[k];
    }
    if HasOptAttr(attrs) {
      var k :| 0 <= k < |attrs| && IsOptAttr(attrs[k]);
      if k < |init| {
        assert init[k] == attrs[k];
      }
    }
  }

  /** `attrs.retain(..)` with the closure that records whether it dropped an `#[opt]`. */
  method RetainNonOpt(attrs: seq<Attr>) returns (kept: seq<Attr>, isOptional: bool)
    ensures kept == NonOptAttrs(attrs)
    ensures isOptional == HasOptAttr(attrs)
  {
    kept, isOptional := [], false;
    for i := 0 to |attrs|
      invariant kept == NonOptAttrs(attrs[..i])
      invariant isOptional == HasOptAttr(attrs[..i])
    {
      HasOptAttrSnoc(attrs[..i], attrs[i]);
      assert attrs[..i + 1] == attrs[..i] + [attrs[i]];
      if IsOptAttr(attrs[i]) {
        isOptional := true;
      } else {
        kept := kept + [attrs[i]];
      }
    }
    assert attrs[..|attrs|] == attrs;
  }

  /** A parameter with its `#[opt]` attributes removed and nothing else changed. */
  function Strip(a: FnArg): (r: FnArg)
    ensures r.attrs == NonOptAttrs(a.attrs)
  {
    a.(attrs := NonOptAttrs(a.attrs))
  }

  /** The rewrite of one parameter in place: its attributes `retain`ed, and whether one was `#[opt]`. */
  method StripParam(arg: FnArg) returns (arg': FnArg, isOptional: bool)
    ensures arg' == Strip(arg)
    ensures isOptional == IsOptional(arg)
  {
    var kept;
    kept, isOptional := RetainNonOpt(arg.attrs);
    arg' := arg.(attrs := kept);
  }

  /** The parameters rewritten so far, the counter, and the method's error list. */
  datatype OptScan = OptScan(inputs: seq<FnArg>, optional: Option<nat>, errors: seq<Diag>)

  /** One parameter at index `n`. */
  function OptStep(n: nat, arg: FnArg, st: OptScan): OptScan {
    var st := st.(inputs := st.inputs + [Strip(arg)]);
    if IsOptional(arg) then
      if n < 2 then st.(errors := st.errors + [Diag(arg.span, OptionalSelfOrOwner)])
      else st.(optional := Some(GetOr(st.optional, 0) + 1))
    else if st.optional.Some? then st.(errors := st.errors + [Diag(arg.span, RequiredAfterOptional)])
    else st
  }

  function ScanInputs(args: seq<FnArg>, st: OptScan): OptScan {
    if args == [] then st
    else OptStep(|args| - 1, args[|args| - 1], ScanInputs(args[..|args| - 1], st))
  }

  /** The `iter_mut().enumerate()` loop, rewriting the parameters in place. */
  method ScanOptional(inputs: seq<FnArg>, errors: seq<Diag>)
    returns (args: seq<FnArg>, optional: Option<nat>, errors': seq<Diag>)
    ensures OptScan(args, optional, errors') == ScanInputs(inputs, OptScan([], None, errors))
  {
    ghost var st0 := OptScan([], None, errors);
    args, optional, errors' := inputs, None, errors;
    for n := 0 to |inputs|
      invariant |args| == |inputs|
      invariant forall k :: n <= k < |args| ==> args[k] == inputs[k]
      invariant OptScan(args[..n], optional, errors') == ScanInputs(inputs[..n], st0)
    {
      assert inputs[..n + 1][..n] == inputs[..n];
      var arg := args[n];
      ghost var next := OptStep(n, arg, OptScan(args[..n], optional, errors'));
      assert next == ScanInputs(inputs[..n + 1], st0);
      var stripped, isOptional := StripParam(arg);
      ghost var done := args[..n];
      args := args[n := stripped];
      assert args[..n + 1] == done + [stripped];
      if isOptional {
        if n < 2 {
          errors' := errors' + [Diag(arg.span, OptionalSelfOrOwner)];
        } else {
          optional := Some(GetOr(optional, 0) + 1);
        }
      } else if optional.Some? {
        errors' := errors' + [Diag(arg.span, RequiredAfterOptional)];
      }
      assert OptScan(args[..n + 1], optional, errors') == next;
    }
    assert args[..|inputs|] == args;
    assert inputs[..|inputs|] == inputs;
  }

  /** The number of marked parameters after the receiver and the owner. */
  function CountOpt(args: seq<FnArg>): (c: nat)
    ensures c == 0 || c + 2 <= |args|
    ensures c > 0 <==> exists n :: 2 <= n < |args| && IsOptional(args[n])
  {
    if args == [] then 0
    else
      var init := args[..|args| - 1];
      var n := |args| - 1;
      var c := CountOpt(init);
      assert forall m :: 0 <= m < |init| ==> init[m] == args[m];
      c + (if n >= 2 && IsOptional(args[n]) then 1 else 0)
  }

  /** The parameters keep their order and lose exactly their `#[opt]` attributes. */
  lemma {:induction false} ScanStrips(args: seq<FnArg>, st: OptScan)
    ensures var r := ScanInputs(args, st);
      && |r.inputs| == |st.inputs| + |args|
      && r.inputs[..|st.inputs|] == st.inputs
      && (forall n :: 0 <= n < |args| ==>
            r.inputs[|st.inputs| + n] == Strip(args[n]))
  {
    if args != [] {
      var init := args[..|args| - 1];
      ScanStrips(init, st);
      var r0 := ScanInputs(init, st);
      var r := ScanInputs(args, st);
      assert r.inputs == r0.inputs + [Strip(args[|args| - 1])];
      assert forall n :: 0 <= n < |init| ==> init[n] == args[n];
    }
  }

  /** Whether the parameter at index `n` is reported, given the counter before it. */
  predicate Reports(n: nat, arg: FnArg, optional: Option<nat>) {
    (IsOptional(arg) && n < 2) || (!IsOptional(arg) && optional.Some?)
  }

  /**
    One step appends a diagnostic exactly when it reports the parameter, at
    the parameter's span: "self or owner cannot be optional" for a marked
    receiver or owner, "cannot add required parameters after optional ones"
    for an unmarked parameter after the count has started.
  */
  lemma StepErrors(n: nat, arg: FnArg, st: OptScan)
    ensures var r := OptStep(n, arg, st);
      && |r.errors| == |st.errors| + (if Reports(n, arg, st.optional) then 1 else 0)
      && r.errors[..|st.errors|] == st.errors
      && r.errors == st.errors +
           (if Reports(n, arg, st.optional)
            then [Diag(arg.span, if IsOptional(arg) then OptionalSelfOrOwner else RequiredAfterOptional)]
            else [])
  {
  }

  /** Diagnostics are only appended. */
  lemma {:induction false} ScanExtendsErrors(args: seq<FnArg>, st: OptScan)
    ensures var r := ScanInputs(args, st);
      |r.errors| >= |st.errors| && r.errors[..|st.errors|] == st.errors
  {
    if args != [] {
      var init := args[..|args| - 1];
      ScanExtendsErrors(init, st);
      var r0 := ScanInputs(init, st);
      StepErrors(|init|, args[|args| - 1], r0);
      var e := ScanInputs(args, st).errors;
      assert e[..|st.errors|] == e[..|r0.errors|][..|st.errors|];
    }
  }

  /**
    The counter is unset when no parameter after the receiver and the owner
    is marked, and otherwise holds the number of marked ones.
  */
  lemma {:induction false} OptionalCounted(args: seq<FnArg>, st: OptScan)
    requires st.optional == None
    ensures ScanInputs(args, st).optional == if CountOpt(args) == 0 then None else Some(CountOpt(args))
  {
    if args != [] {
      OptionalCounted(args[..|args| - 1], st);
    }
  }

  /**
    Parameters whose markers are well placed: neither the receiver nor the
    owner is marked, and after the first marked parameter every one is.
  */
  ghost predicate WellPlaced(args: seq<FnArg>) {
    && (forall n :: 0 <= n < |args| && n < 2 ==> !IsOptional(args[n]))
    && (forall a, b :: 2 <= a < b < |args| && IsOptional(args[a]) ==> IsOptional(args[b]))
  }

  /** Appending one parameter keeps the markers well placed exactly when it is not reported. */
  lemma WellPlacedSnoc(init: seq<FnArg>, x: FnArg)
    ensures WellPlaced(init + [x]) <==>
      WellPlaced(init) && !Reports(|init|, x, if CountOpt(init) == 0 then None else Some(CountOpt(init)))
  {
    if WellPlaced(init + [x]) {
      WellPlacedShrinks(init, x);
    }
    if WellPlaced(init) && !Reports(|init|, x, if CountOpt(init) == 0 then None else Some(CountOpt(init))) {
      WellPlacedGrows(init, x);
    }
  }

  lemma WellPlacedShrinks(init: seq<FnArg>, x: FnArg)
    requires WellPlaced(init + [x])
    ensures WellPlaced(init)
    ensures !Reports(|init|, x, if CountOpt(init) == 0 then None else Some(CountOpt(init)))
  {
    var args := init + [x];
    var n := |init|;
    assert forall m :: 0 <= m < n ==> args[m] == init[m];
    assert args[n] == x;
    forall a | 2 <= a < n && IsOptional(init[a])
      ensures IsOptional(x)
    {
      assert IsOptional(args[a]);
    }
  }

  lemma WellPlacedGrows(init: seq<FnArg>, x: FnArg)
    requires WellPlaced(init)
    requires !Reports(|init|, x, if CountOpt(init) == 0 then None else Some(CountOpt(init)))
    ensures WellPlaced(init + [x])
  {
    var args := init + [x];
    var n := |init|;
    assert forall m :: 0 <= m < n ==> args[m] == init[m];
    assert args[n] == x;
    forall a, b | 2 <= a < b < |args| && IsOptional(args[a])
      ensures IsOptional(args[b])
    {
      if b == n {
        assert IsOptional(init[a]);
      } else {
        assert IsOptional(init[a]) && IsOptional(init[b]);
      }
    }
  }

  /** The scan reports nothing exactly when the markers are well placed. */
  lemma {:induction false} ScanCleanIff(args: seq<FnArg>, st: OptScan)
    requires st.optional == None
    ensures ScanInputs(args, st).errors == st.errors <==> WellPlaced(args)
  {
    if args != [] {
      var init := args[..|args| - 1];
      var x := args[|args| - 1];
      assert args == init + [x];
      ScanCleanIff(init, st);
      OptionalCounted(init, st);
      ScanExtendsErrors(init, st);
      var r0 := ScanInputs(init, st);
      StepErrors(|init|, x, r0);
      WellPlacedSnoc(init, x);
    }
  }

  /**
    With well-placed markers the marked parameters are exactly the last
    `CountOpt(args)` ones.
  */
  lemma {:induction false} MarkedSuffix(args: seq<FnArg>)
    requires WellPlaced(args)
    ensures forall n :: 0 <= n < |args| ==> (IsOptional(args[n]) <==> n >= |args| - CountOpt(args))
  {
    if args != [] {
      var init := args[..|args| - 1];
      var x := args[|args| - 1];
      var n := |init|;
      assert forall m :: 0 <= m < n ==> init[m] == args[m];
      assert WellPlaced(init);
      MarkedSuffix(init);
      if !IsOptional(x) {
        assert forall m :: 2 <= m < n ==> !IsOptional(init[m]);
        assert CountOpt(init) == 0;
      }
    }
  }
}
