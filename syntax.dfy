/**
  The part of a Rust `impl` block that the `methods` derive pass looks at, as
  plain values: paths, attributes and their already-parsed payloads, method
  signatures and the items of the block. Everything the pass only copies
  around (types, bodies, other items) is an opaque number, and every source
  position is an opaque `Span` that the pass only copies into diagnostics.
*/
module Syntax {

  datatype Option<T> = None | Some(value: T)

  function GetOr<T>(o: Option<T>, default: T): T {
    match o
    case Some(v) => v
    case None => default
  }

  /** A source position; the pass never inspects one, it only attaches it to diagnostics. */
  type Span = nat

  /** Types, bodies and items the pass never looks into. */
  type Opaque = nat

  datatype Ident = Ident(name: string, span: Span)

  /** `a::b::c`; `global` records a leading `::`. */
  datatype Path = Path(global: bool, segments: seq<Ident>, span: Span)

  /** Outer `#[..]` or inner `#![..]`. */
  datatype AttrStyle = Outer | Inner

  /** The literal on the right of `name = literal`; a non-string one is kept as its token text. */
  datatype Lit = LitStr(value: string) | LitOther(tokens: string)

  datatype NameValue = NameValue(path: Path, lit: Lit)

  /** One element of a parenthesised attribute list. */
  datatype NestedMeta =
    | NestedNameValue(pair: NameValue)
    | NestedOther(tokens: string, span: Span)

  /**
    The three shapes an attribute payload parses into: `path`, `path(list)`,
    `path = lit`. In the last the path is the attribute's own path, so only
    the literal is stored.
  */
  datatype Meta =
    | MetaPath(tokens: string, span: Span)
    | MetaList(nested: seq<NestedMeta>)
    | MetaNameValue(lit: Lit)

  /**
    The tokens after an attribute's path: none at all, tokens the meta parser
    rejects (with its message and position), or a parsed meta.
  */
  datatype AttrTokens =
    | NoTokens
    | Unparsable(error: string, span: Span)
    | Parsed(meta: Meta)

  datatype Attr = Attr(style: AttrStyle, path: Path, tokens: AttrTokens)

  /** Parameter patterns: `_`, `[ref] [mut] name [@ sub]`, or anything else. */
  datatype Pat =
    | PatWild
    | PatIdent(byRef: bool, mutable: bool, ident: Ident, subpat: Option<Opaque>)
    | PatOther(id: Opaque)

  /** A parameter: the receiver `[&][mut] self`, or `pattern: Type`. */
  datatype FnArg =
    | Receiver(attrs: seq<Attr>, reference: bool, mutable: bool, span: Span)
    | Typed(attrs: seq<Attr>, pat: Pat, ty: Opaque, span: Span)

  datatype GenericParam =
    | TypeParam(ident: Ident)
    | LifetimeParam(ident: Ident)
    | ConstParam(ident: Ident)

  datatype ReturnType = DefaultReturn | ReturnTy(ty: Opaque)

  datatype Signature = Signature(
    unsafety: bool,
    ident: Ident,
    generics: seq<GenericParam>,
    inputs: seq<FnArg>,
    output: ReturnType)

  datatype ImplMethod = ImplMethod(attrs: seq<Attr>, sig: Signature, body: Opaque)

  /** An item of an impl block; `ErrorItem` is a compile error the pass inserts. */
  datatype ImplItem =
    | MethodItem(m: ImplMethod)
    | ErrorItem(diag: Diag)
    | OtherItem(id: Opaque)

  datatype ItemImpl = ItemImpl(header: Opaque, selfTy: Opaque, items: seq<ImplItem>)

  /** The diagnostics the pass can produce. */
  datatype Message =
    | AttrParseError(text: string)
    | UnexpectedListArgument(tokens: string)
    | UnexpectedAttributeArgument(tokens: string)
    | EmptyPath
    | RpcValueNotStr
    | RpcSetTwice
    | UnknownRpcValue(value: string)
    | UnknownOption(key: string)
    | OptionalSelfOrOwner
    | RequiredAfterOptional
    | TypeParamsNotAllowed
    | LifetimeParamsNotAllowed
    | ConstParamsNotAllowed
    | MissingSelfOrOwner
    | TooManyOptional(max: nat, got: nat)

  /** A compile error bound to a source position. */
  datatype Diag = Diag(span: Span, msg: Message)

  /** The text each diagnostic is reported with. */
  function Text(m: Message): string {
    match m
    case AttrParseError(t) => t
    case UnexpectedListArgument(t) => "unexpected argument in list: " + t
    case UnexpectedAttributeArgument(t) => "unexpected attribute argument: " + t
    case EmptyPath => "the path should not be empty"
    case RpcValueNotStr => "unexpected type for rpc value, expected Str"
    case RpcSetTwice => "rpc mode was set more than once"
    case UnknownRpcValue(v) => "unexpected value for rpc: " + v
    case UnknownOption(k) => "unknown option for export: `" + k + "`"
    case OptionalSelfOrOwner => "self or owner cannot be optional"
    case RequiredAfterOptional => "cannot add required parameters after optional ones"
    case TypeParamsNotAllowed => "Type parameters not allowed in exported functions"
    case LifetimeParamsNotAllowed => "Lifetime parameters not allowed in exported functions"
    case ConstParamsNotAllowed => "const parameters not allowed in exported functions"
    case MissingSelfOrOwner => "exported methods must take self and owner as arguments"
    case TooManyOptional(max, got) =>
      "there can be at most " + Decimal(max) + " optional arguments, got " + Decimal(got)
  }

  function Digit(d: nat): (c: char)
    requires d < 10
    ensures '0' <= c <= '9'
    ensures c as int - '0' as int == d
  {
    "0123456789"[d]
  }

  lemma DigitInjective(a: nat, b: nat)
    requires a < 10 && b < 10
    ensures Digit(a) == Digit(b) ==> a == b
  {
  }

  /** The decimal spelling of `n`, as `format!("{}", n)` prints it: no leading zero. */
  function Decimal(n: nat): (s: string)
    ensures |s| >= 1
    ensures n >= 10 ==> |s| >= 2
    ensures forall k :: 0 <= k < |s| ==> '0' <= s[k] <= '9'
    ensures s[0] == '0' ==> n == 0
  {
    if n < 10 then [Digit(n)] else Decimal(n / 10) + [Digit(n % 10)]
  }

  /** The number a string of decimal digits denotes, most significant digit first. */
  function DigitsValue(s: string): int {
    if s == [] then 0 else DigitsValue(s[..|s| - 1]) * 10 + (s[|s| - 1] as int - '0' as int)
  }

  /** Reading the spelling back gives the number. */
  lemma {:induction false} DecimalValue(n: nat)
    ensures DigitsValue(Decimal(n)) == n
  {
    if n >= 10 {
      DecimalValue(n / 10);
      var s := Decimal(n);
      assert s[..|s| - 1] == Decimal(n / 10);
    } else {
      assert Decimal(n)[..0] == [];
    }
  }

  /** Distinct numbers are spelled differently. */
  lemma {:induction false} DecimalInjective(a: nat, b: nat)
    ensures Decimal(a) == Decimal(b) ==> a == b
  {
    if Decimal(a) == Decimal(b) {
      var s := Decimal(a);
      if a < 10 && b < 10 {
        DigitInjective(a, b);
      } else if a >= 10 && b >= 10 {
        assert s[|s| - 1] == Digit(a % 10) == Digit(b % 10);
        DigitInjective(a % 10, b % 10);
        assert Decimal(a / 10) == s[..|s| - 1] == Decimal(b / 10);
        DecimalInjective(a / 10, b / 10);
      }
    }
  }
}
