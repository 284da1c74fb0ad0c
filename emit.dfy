/**
  `derive_methods` (gdnative-derive/src/methods.rs:70-156): every entry of
  `export.methods` becomes either one registration statement or one compile
  error, in list order. Token construction is not modelled: a registration is
  the record of what the generated statement passes on.
*/
module Emit {
  import opened Syntax
  import opened Exports
  import opened OptionalScan
  import opened Extract

  /** A parameter as handed to the wrapper macro; `optional` puts `#[opt]` back in front of it. */
  datatype TaggedArg = TaggedArg(arg: FnArg, optional: bool)

  /** One `build_method(name, ..).with_rpc_mode(rpc).done_stateless()` statement. */
  datatype Registration = Registration(classTy: Opaque, name: string, args: seq<TaggedArg>, ret: ReturnType, rpc: RpcMode)

  datatype Statement = Register(reg: Registration) | CompileError(diag: Diag)

  /** The number of parameters tagged optional. */
  function CountTagged(args: seq<TaggedArg>): nat {
    if args == [] then 0
    else CountTagged(args[..|args| - 1]) + (if args[|args| - 1].optional then 1 else 0)
  }

  /** The parameters in order, the last `optional` of them tagged optional. */
  function Tag(inputs: seq<FnArg>, optional: nat): (r: seq<TaggedArg>)
    requires optional <= |inputs|
    ensures |r| == |inputs|
    ensures forall k :: 0 <= k < |r| ==> r[k].arg == inputs[k]
  {
    seq(|inputs|, k requires 0 <= k < |inputs| => TaggedArg(inputs[k], !(k < |inputs| - optional)))
  }

  /**
    The tagged parameters form a suffix, and there are exactly `optional` of
    them; when `optional` leaves room for the receiver and the owner, neither
    of those is tagged.
  */
  lemma {:induction false} TagSuffix(inputs: seq<FnArg>, optional: nat)
    requires optional <= |inputs|
    ensures var r := Tag(inputs, optional);
      && (forall a, b :: 0 <= a < b < |r| && r[a].optional ==> r[b].optional)
      && CountTagged(r) == optional
      && (optional + 2 <= |inputs| ==> forall k :: 0 <= k < 2 ==> !r[k].optional)
  {
    var r := Tag(inputs, optional);
    if optional > 0 {
      var init := inputs[..|inputs| - 1];
      TagSuffix(init, optional - 1);
      assert r[..|r| - 1] == Tag(init, optional - 1);
    } else {
      CountNoneTagged(r);
    }
  }

  lemma {:induction false} CountNoneTagged(args: seq<TaggedArg>)
    requires forall k :: 0 <= k < |args| ==> !args[k].optional
    ensures CountTagged(args) == 0
  {
    if args != [] {
      CountNoneTagged(args[..|args| - 1]);
    }
  }

  /**
    The `map` closure for one method. Fewer than two parameters is an error,
    and so is an optional count above the number of parameters after the
    receiver and the owner; both are reported at the method name. Otherwise
    the registration carries the class, the name, the parameters with the
    last `optional_args` of them tagged optional, the return type and the
    rpc mode.
  */
  function EmitMethod(classTy: Opaque, em: ExportMethod): (r: Statement)
    ensures var n := |em.sig.inputs|; var o := em.args.optionalArgs;
      && (r.CompileError? <==> n < 2 || (o.Some? && o.value + 2 > n))
      && (r.CompileError? ==> r.diag.span == em.sig.ident.span)
      && (n < 2 ==> r.diag.msg == MissingSelfOrOwner)
      && (r.CompileError? && n >= 2 ==> r.diag.msg == TooManyOptional(n - 2, o.value))
      && (r.Register? ==>
            && r.reg.classTy == classTy && r.reg.name == em.sig.ident.name
            && r.reg.ret == em.sig.output && r.reg.rpc == em.args.rpcMode
            && r.reg.args == Tag(em.sig.inputs, GetOr(o, 0)))
  {
    var span := em.sig.ident.span;
    var argCount := |em.sig.inputs|;
    if argCount < 2 then CompileError(Diag(span, MissingSelfOrOwner))
    else
      var maxOptional := argCount - 2;
      match em.args.optionalArgs
      case Some(count) =>
        if count > maxOptional then CompileError(Diag(span, TooManyOptional(maxOptional, count)))
        else Register(Registration(classTy, em.sig.ident.name, Tag(em.sig.inputs, count), em.sig.output, em.args.rpcMode))
      case None =>
        Register(Registration(classTy, em.sig.ident.name, Tag(em.sig.inputs, 0), em.sig.output, em.args.rpcMode))
  }

  /** The generated code: the rewritten impl block and the statements of the `register` function. */
  datatype Derived = Derived(implBlock: ItemImpl, classTy: Opaque, statements: seq<Statement>)

  function Statements(classTy: Opaque, methods: seq<ExportMethod>): (r: seq<Statement>)
    ensures |r| == |methods|
    ensures forall k :: 0 <= k < |r| ==> r[k] == EmitMethod(classTy, methods[k])
  {
    seq(|methods|, k requires 0 <= k < |methods| => EmitMethod(classTy, methods[k]))
  }

  function DeriveMethods(ast: ItemImpl): Derived {
    var (implBlock, exported) := ExposeSpec(ast);
    Derived(implBlock, exported.classTy, Statements(exported.classTy, exported.methods))
  }

  /**
    For a record the extraction pass produces, the optional-count error never
    fires: the statement is an error exactly when there are fewer than two
    parameters, and otherwise a registration whose optional parameters are a
    suffix that never includes the receiver or the owner.
  */
  lemma RegistrableEmits(classTy: Opaque, em: ExportMethod)
    requires Registrable(em)
    ensures var r := EmitMethod(classTy, em);
      && (r.CompileError? <==> |em.sig.inputs| < 2)
      && (r.CompileError? ==> r.diag.msg == MissingSelfOrOwner)
      && (r.Register? ==>
            && CountTagged(r.reg.args) == GetOr(em.args.optionalArgs, 0)
            && forall k :: 0 <= k < 2 ==> !r.reg.args[k].optional)
  {
    if |em.sig.inputs| >= 2 {
      TagSuffix(em.sig.inputs, GetOr(em.args.optionalArgs, 0));
    }
  }

  /**
    `derive_methods` as a whole: the impl block is the rewritten one, and there
    is one statement per accepted exported method, in order, none of them an
    optional-count error, each an error exactly when its method takes fewer
    than two parameters.
  */
  lemma DeriveFacts(ast: ItemImpl)
    ensures var d := DeriveMethods(ast); var methods := AcceptedRecords(ExportedRecords(ast.items));
      && d.implBlock == ExposeSpec(ast).0 && d.classTy == ast.selfTy
      && |d.statements| == |methods|
      && (forall k :: 0 <= k < |methods| ==>
            (d.statements[k].CompileError? <==> |methods[k].sig.inputs| < 2)
            && (d.statements[k].CompileError? ==> d.statements[k].diag.msg == MissingSelfOrOwner)
            && (d.statements[k].Register? ==>
                  d.statements[k].reg.name == methods[k].sig.ident.name
                  && d.statements[k].reg.rpc == methods[k].args.rpcMode))
  {
    ExposeFacts(ast);
    var methods := AcceptedRecords(ExportedRecords(ast.items));
    forall k | 0 <= k < |methods|
      ensures (EmitMethod(ast.selfTy, methods[k]).CompileError? <==> |methods[k].sig.inputs| < 2)
      ensures EmitMethod(ast.selfTy, methods[k]).CompileError? ==> EmitMethod(ast.selfTy, methods[k]).diag.msg == MissingSelfOrOwner
    {
      RegistrableEmits(ast.selfTy, methods[k]);
    }
  }

  /**
    End to end, for one exported, non-generic method with at least two
    parameters and well-placed `#[opt]` markers: the generated registration
    tags exactly the parameters the source marked `#[opt]`, passes every
    parameter on normalised and without its markers, and carries the last
    rpc mode the attributes selected.
  */
  lemma MarkersRoundTrip(classTy: Opaque, m: ImplMethod)
    requires HasExportAttr(m.attrs) && m.sig.generics == []
    requires |m.sig.inputs| >= 2 && WellPlaced(m.sig.inputs)
    ensures var r := EmitMethod(classTy, Accept(RecordOf(m)));
      && r.Register?
      && r.reg.name == m.sig.ident.name
      && r.reg.rpc == FinalRpc(m.attrs)
      && |r.reg.args| == |m.sig.inputs|
      && (forall k :: 0 <= k < |m.sig.inputs| ==>
            (r.reg.args[k].optional <==> IsOptional(m.sig.inputs[k]))
            && r.reg.args[k].arg == NormalizeArg(k, Strip(m.sig.inputs[k]), m.sig.ident.span))
  {
    MarkedSuffix(m.sig.inputs);
    var em := Accept(RecordOf(m));
    assert |em.sig.inputs| == |m.sig.inputs|;
  }
}
