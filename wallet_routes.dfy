/** The typed URL parameters of the wallet's web API and the dispatch rules
    of its key and account endpoints (wallet/src/routes.rs). Decoding of
    tagged-base64 and base64 text, UTF-8 decoding and the deserialization of
    keys are calls into code outside this model and are parameters; the
    wallet itself is an opaque value of type `W`. Integers are those of a
    64-bit target. */
module WalletRoutes {
  import opened Wrappers

  type Byte = bv8

  const U64_MODULUS: nat := 0x1_0000_0000_0000_0000
  const U128_MODULUS: nat := 0x1_0000_0000_0000_0000_0000_0000_0000_0000

  /** An identifier in the tagged-base64 form: a tag and the bytes. */
  datatype TaggedBase64 = TaggedBase64(tag: string, value: seq<Byte>)

  datatype CapeApiError =
    | Wallet(msg: string)
    | OpenWallet(msg: string)
    | MissingWallet
    | Param(expected: string, actual: string)
    | Tag(expected: string, actual: string)
    | Deserialize(msg: string)
    | Internal(msg: string)

  const HTTP_BAD_REQUEST: nat := 400
  const HTTP_INTERNAL_SERVER_ERROR: nat := 500

  /** `CapeAPIError::status`: the wallet's own failures are the server's,
      every other error is the client's. */
  function Status(e: CapeApiError): (code: nat)
    ensures code == HTTP_INTERNAL_SERVER_ERROR <==> e.Wallet? || e.Internal?
    ensures code == HTTP_BAD_REQUEST <==>
              e.Param? || e.Tag? || e.Deserialize? || e.OpenWallet? || e.MissingWallet?
  {
    match e
    case Param(_, _) => HTTP_BAD_REQUEST
    case Tag(_, _) => HTTP_BAD_REQUEST
    case Deserialize(_) => HTTP_BAD_REQUEST
    case OpenWallet(_) => HTTP_BAD_REQUEST
    case MissingWallet => HTTP_BAD_REQUEST
    case Wallet(_) => HTTP_INTERNAL_SERVER_ERROR
    case Internal(_) => HTTP_INTERNAL_SERVER_ERROR
  }

  /** An error of an endpoint: one of the API's own, or bytes that are not
      UTF-8 text (reported by the web framework as a server error). */
  datatype RouteFailure = Api(error: CapeApiError) | InvalidUtf8

  function FailureStatus(f: RouteFailure): (code: nat)
    ensures f.Api? ==> code == Status(f.error)
    ensures f.InvalidUtf8? ==> code == HTTP_INTERNAL_SERVER_ERROR
  {
    match f
    case Api(e) => Status(e)
    case InvalidUtf8 => HTTP_INTERNAL_SERVER_ERROR
  }

  // ---------------------------------------------------------------------
  // URL segments

  datatype UrlSegmentType =
    | BooleanSegment | HexadecimalSegment | IntegerSegment | TaggedBase64Segment | Base64Segment | LiteralSegment

  datatype UrlSegmentValue =
    | Boolean(b: bool)
    | Hexadecimal(h: nat)
    | Integer(i: nat)
    | Identifier(id: TaggedBase64)
    | Base64(bytes: seq<Byte>)
    | Unparsed(text: string)
    | ParseFailed(ptype: UrlSegmentType, text: string)
    | Literal(s: string)
  {
    /** The displayed form of a value, as error messages show it: the name
        of its variant. */
    function VariantName(): string {
      match this
      case Boolean(_) => "Boolean"
      case Hexadecimal(_) => "Hexadecimal"
      case Integer(_) => "Integer"
      case Identifier(_) => "Identifier"
      case Base64(_) => "Base64"
      case Unparsed(_) => "Unparsed"
      case ParseFailed(_, _) => "ParseFailed"
      case Literal(_) => "Literal"
    }
  }

  /** The decoders of the two binary segment types. */
  datatype Decoders = Decoders(
    taggedBase64: string -> Option<TaggedBase64>,
    base64: string -> Option<seq<Byte>>)

  /** The value of digit `c` in base `radix`, if it is one: decimal digits,
      then letters of either case from 10 on. */
  function DigitOf(c: char, radix: nat): (r: Option<nat>)
    ensures r.Some? ==> r.value < radix
  {
    var d: int :=
      if '0' <= c <= '9' then c as int - '0' as int
      else if 'a' <= c <= 'z' then c as int - 'a' as int + 10
      else if 'A' <= c <= 'Z' then c as int - 'A' as int + 10
      else radix;
    if 0 <= d < radix then Some(d) else None
  }

  /** The number a string of digits writes in base `radix`, most
      significant digit first; none if some character is not a digit. */
  function DigitsValue(s: string, radix: nat): Option<nat>
    decreases |s|
  {
    if |s| == 0 then Some(0)
    else
      match DigitsValue(s[..|s| - 1], radix)
      case None => None
      case Some(v) =>
        match DigitOf(s[|s| - 1], radix)
        case None => None
        case Some(d) => Some(v * radix + d)
  }

  /** Parsing an unsigned integer below `bound` in base `radix`: an optional
      `+` and at least one digit; a value that does not fit is an error. */
  function ParseUnsigned(s: string, radix: nat, bound: nat): (r: Option<nat>)
    ensures r.Some? ==> r.value < bound
    ensures |s| == 0 ==> r.None?
    ensures s == "+" ==> r.None?
  {
    var digits := if |s| > 0 && s[0] == '+' then s[1..] else s;
    if |digits| == 0 then None
    else
      match DigitsValue(digits, radix)
      case Some(v) => if v < bound then Some(v) else None
      case None => None
  }

  /** `UrlSegmentValue::parse`: only `true` and `false` are booleans;
      integers are `u128` in base 16 or 10; a literal is kept as it is. */
  function Parse(dec: Decoders, ptype: UrlSegmentType, value: string): (r: Option<UrlSegmentValue>)
    ensures ptype == LiteralSegment ==> r == Some(Literal(value))
    ensures ptype == BooleanSegment ==>
              r == (if value == "true" then Some(Boolean(true))
                    else if value == "false" then Some(Boolean(false)) else None)
    ensures r.Some? && r.value.Integer? ==> r.value.i < U128_MODULUS
    ensures r.Some? && r.value.Hexadecimal? ==> r.value.h < U128_MODULUS
  {
    match ptype
    case BooleanSegment =>
      if value == "true" then Some(Boolean(true))
      else if value == "false" then Some(Boolean(false))
      else None
    case HexadecimalSegment =>
      (match ParseUnsigned(value, 16, U128_MODULUS)
       case Some(h) => Some(Hexadecimal(h))
       case None => None)
    case IntegerSegment =>
      (match ParseUnsigned(value, 10, U128_MODULUS)
       case Some(i) => Some(Integer(i))
       case None => None)
    case TaggedBase64Segment =>
      (match dec.taggedBase64(value)
       case Some(id) => Some(Identifier(id))
       case None => None)
    case Base64Segment =>
      (match dec.base64(value)
       case Some(bytes) => Some(Base64(bytes))
       case None => None)
    case LiteralSegment => Some(Literal(value))
  }

  /** The character of digit `d` (lower-case letters from 10 on). */
  function DigitChar(d: nat): (c: char)
    requires d < 36
  {
    if d < 10 then ('0' as int + d) as char else ('a' as int + d - 10) as char
  }

  /** Dividing by a radix of at least 2 shrinks a number. */
  lemma DivShrinks(n: nat, radix: nat)
    requires 2 <= radix <= n
    ensures n / radix < n
  {
    var q := n / radix;
    DivModSplit(n, radix);
    MulAtLeastDouble(q, radix);
  }

  lemma MulAtLeastDouble(q: nat, radix: nat)
    requires 2 <= radix
    ensures q * radix >= 2 * q
  {
    var extra: nat := radix - 2;
    assert q * radix == q * extra + 2 * q;
  }

  /** The digits of `n` in base `radix`, most significant first, without
      leading zeros. */
  function ToDigits(n: nat, radix: nat): (s: string)
    requires 2 <= radix <= 36
    ensures |s| > 0 && s[0] != '+'
    decreases n
  {
    if n < radix then [DigitChar(n)]
    else
      DivShrinks(n, radix);
      ToDigits(n / radix, radix) + [DigitChar(n % radix)]
  }

  lemma DigitCharRoundTrip(d: nat, radix: nat)
    requires d < radix <= 36
    ensures DigitOf(DigitChar(d), radix) == Some(d)
  {
  }

  /** Appending a digit multiplies the value by the radix and adds the
      digit. */
  lemma DigitsValueAppend(s: string, c: char, radix: nat)
    requires DigitsValue(s, radix).Some? && DigitOf(c, radix).Some?
    ensures DigitsValue(s + [c], radix) == Some(DigitsValue(s, radix).value * radix + DigitOf(c, radix).value)
  {
    assert (s + [c])[..|s|] == s;
  }

  lemma DivModSplit(n: nat, radix: nat)
    requires radix > 0
    ensures (n / radix) * radix + n % radix == n
  {
  }

  /** The digits of a number read back as that number. */
  lemma {:induction false} ToDigitsValue(n: nat, radix: nat)
    requires 2 <= radix <= 36
    ensures DigitsValue(ToDigits(n, radix), radix) == Some(n)
    decreases n
  {
    if n < radix {
      DigitCharRoundTrip(n, radix);
      DigitsValueAppend([], DigitChar(n), radix);
      assert [] + [DigitChar(n)] == ToDigits(n, radix);
    } else {
      var q, d := n / radix, n % radix;
      var front := ToDigits(q, radix);
      assert ToDigits(n, radix) == front + [DigitChar(d)];
      DivShrinks(n, radix);
      ToDigitsValue(q, radix);
      DigitCharRoundTrip(d, radix);
      DigitsValueAppend(front, DigitChar(d), radix);
      DivModSplit(n, radix);
      assert DigitsValue(ToDigits(n, radix), radix) == Some(q * radix + d);
    }
  }

  /** A `u128` written in decimal parses back as that integer, and written
      in hexadecimal as that hexadecimal value. */
  lemma ParseIntegerRoundTrip(dec: Decoders, n: nat)
    requires n < U128_MODULUS
    ensures Parse(dec, IntegerSegment, ToDigits(n, 10)) == Some(Integer(n))
    ensures Parse(dec, HexadecimalSegment, ToDigits(n, 16)) == Some(Hexadecimal(n))
  {
    ToDigitsValue(n, 10);
    ToDigitsValue(n, 16);
  }

  /** A decimal number of `u128` range or more is not an integer segment. */
  lemma ParseIntegerRejectsOverflow(dec: Decoders, n: nat)
    requires n >= U128_MODULUS
    ensures Parse(dec, IntegerSegment, ToDigits(n, 10)).None?
  {
    ToDigitsValue(n, 10);
  }

  // ---------------------------------------------------------------------
  // Typed accessors

  /** The parameter error of an accessor that expected `expected`. */
  function ParamError(expected: string, v: UrlSegmentValue): RouteFailure {
    Api(Param(expected, v.VariantName()))
  }

  /** `as_boolean`. */
  function AsBoolean(v: UrlSegmentValue): (r: Result<bool, RouteFailure>)
    ensures r.Success? <==> v.Boolean?
    ensures v.Boolean? ==> r.value == v.b
    ensures !v.Boolean? ==> r == Failure(ParamError("Boolean", v))
  {
    if v.Boolean? then Success(v.b) else Failure(ParamError("Boolean", v))
  }

  /** `as_index`: an integer, cast to `usize`. */
  function AsIndex(v: UrlSegmentValue): (r: Result<nat, RouteFailure>)
    ensures r.Success? <==> v.Integer?
    ensures v.Integer? ==> r.value == v.i % U64_MODULUS
    ensures !v.Integer? ==> r == Failure(ParamError("Index", v))
  {
    if v.Integer? then Success(v.i % U64_MODULUS) else Failure(ParamError("Index", v))
  }

  /** `as_u64`: an integer, cast to `u64`, which keeps its low 64 bits. */
  function AsU64(v: UrlSegmentValue): (r: Result<nat, RouteFailure>)
    ensures r.Success? <==> v.Integer?
    ensures r.Success? ==> r.value < U64_MODULUS
    ensures v.Integer? && v.i < U64_MODULUS ==> r == Success(v.i)
    ensures v.Integer? ==> r.value % U64_MODULUS == v.i % U64_MODULUS
    ensures !v.Integer? ==> r == Failure(ParamError("Integer", v))
  {
    if v.Integer? then Success(v.i % U64_MODULUS) else Failure(ParamError("Integer", v))
  }

  /** `as_usize`: `as_u64` cast to `usize`, the same width. */
  function AsUsize(v: UrlSegmentValue): (r: Result<nat, RouteFailure>)
    ensures r == AsU64(v)
  {
    var x :- AsU64(v);
    Success(x)
  }

  /** An integer segment one past the largest `u64` reads as 0 through
      `as_u64`, and one more as 1: the cast drops the high bits. */
  lemma AsU64DropsHighBits()
    ensures AsU64(Integer(U64_MODULUS)) == Success(0)
    ensures AsU64(Integer(U64_MODULUS + 1)) == Success(1)
  {
  }

  /** `as_identifier`. */
  function AsIdentifier(v: UrlSegmentValue): (r: Result<TaggedBase64, RouteFailure>)
    ensures r.Success? <==> v.Identifier?
    ensures v.Identifier? ==> r.value == v.id
    ensures !v.Identifier? ==> r == Failure(ParamError("TaggedBase64", v))
  {
    if v.Identifier? then Success(v.id) else Failure(ParamError("TaggedBase64", v))
  }

  /** `as_base64`. */
  function AsBase64(v: UrlSegmentValue): (r: Result<seq<Byte>, RouteFailure>)
    ensures r.Success? <==> v.Base64?
    ensures v.Base64? ==> r.value == v.bytes
    ensures !v.Base64? ==> r == Failure(ParamError("Base64", v))
  {
    if v.Base64? then Success(v.bytes) else Failure(ParamError("Base64", v))
  }

  /** `as_path`: base64 bytes read as UTF-8 text (`utf8` decodes, or gives
      none on invalid bytes). */
  function AsPath(v: UrlSegmentValue, utf8: seq<Byte> -> Option<string>): (r: Result<string, RouteFailure>)
    ensures r.Success? <==> v.Base64? && utf8(v.bytes).Some?
    ensures r.Success? ==> r.value == utf8(v.bytes).value
    ensures v.Base64? && utf8(v.bytes).None? ==> r == Failure(InvalidUtf8)
  {
    var bytes :- AsBase64(v);
    match utf8(bytes)
    case Some(text) => Success(text)
    case None => Failure(InvalidUtf8)
  }

  /** `as_string`: a literal as it is, or the bytes of an identifier read as
      UTF-8 text; any other value is a parameter error. */
  function AsString(v: UrlSegmentValue, utf8: seq<Byte> -> Option<string>): (r: Result<string, RouteFailure>)
    ensures v.Literal? ==> r == Success(v.s)
    ensures v.Identifier? ==> r == (if utf8(v.id.value).Some? then Success(utf8(v.id.value).value) else Failure(InvalidUtf8))
    ensures !v.Literal? && !v.Identifier? ==> r == Failure(ParamError("String", v))
  {
    match v
    case Literal(s) => Success(s)
    case Identifier(id) =>
      (match utf8(id.value)
       case Some(text) => Success(text)
       case None => Failure(InvalidUtf8))
    case _ => Failure(ParamError("String", v))
  }

  /** `to`: an identifier deserialized by `fromBlob`; a blob that does not
      deserialize is a deserialization error. */
  function To<T>(v: UrlSegmentValue, fromBlob: TaggedBase64 -> Result<T, string>): (r: Result<T, RouteFailure>)
    ensures !v.Identifier? ==> r == Failure(ParamError("TaggedBase64", v))
    ensures v.Identifier? ==>
      r == (if fromBlob(v.id).Success? then Success(fromBlob(v.id).value)
            else Failure(Api(Deserialize(fromBlob(v.id).error))))
  {
    var id :- AsIdentifier(v);
    match fromBlob(id)
    case Success(x) => Success(x)
    case Failure(msg) => Failure(Api(Deserialize(msg)))
  }

  /** A failure of `as_boolean`, `as_u64`, `as_index`, `as_identifier`,
      `as_base64` or `to` is the client's (400). `as_path` and `as_string`
      blame the client for a value of the wrong kind, and the server (500)
      for bytes that are not UTF-8. */
  lemma AccessorFailuresAreClientErrors<T>(v: UrlSegmentValue, utf8: seq<Byte> -> Option<string>,
                                           fromBlob: TaggedBase64 -> Result<T, string>)
    ensures AsBoolean(v).Failure? ==> FailureStatus(AsBoolean(v).error) == HTTP_BAD_REQUEST
    ensures AsU64(v).Failure? ==> FailureStatus(AsU64(v).error) == HTTP_BAD_REQUEST
    ensures AsIndex(v).Failure? ==> FailureStatus(AsIndex(v).error) == HTTP_BAD_REQUEST
    ensures AsIdentifier(v).Failure? ==> FailureStatus(AsIdentifier(v).error) == HTTP_BAD_REQUEST
    ensures AsBase64(v).Failure? ==> FailureStatus(AsBase64(v).error) == HTTP_BAD_REQUEST
    ensures To(v, fromBlob).Failure? ==> FailureStatus(To(v, fromBlob).error) == HTTP_BAD_REQUEST
    ensures AsPath(v, utf8).Failure? ==>
              FailureStatus(AsPath(v, utf8).error) == (if v.Base64? then HTTP_INTERNAL_SERVER_ERROR else HTTP_BAD_REQUEST)
    ensures AsString(v, utf8).Failure? ==>
              FailureStatus(AsString(v, utf8).error) == (if v.Identifier? then HTTP_INTERNAL_SERVER_ERROR else HTTP_BAD_REQUEST)
  {
  }

  // ---------------------------------------------------------------------
  // Endpoints

  /** `require_wallet`: the open wallet, or the error that none is open. */
  function RequireWallet<W>(wallet: Option<W>): (r: Result<W, RouteFailure>)
    ensures r.Failure? <==> wallet.None?
    ensures r.Failure? ==> r.error == Api(MissingWallet)
    ensures r.Success? ==> r.value == wallet.value
  {
    match wallet
    case Some(w) => Success(w)
    case None => Failure(Api(MissingWallet))
  }

  /** `closewallet`: the result, and the open wallet afterwards. */
  function CloseWallet<W>(wallet: Option<W>): (r: (Result<(), RouteFailure>, Option<W>))
    ensures r.0.Success? <==> wallet.Some?
    ensures r.0.Failure? ==> r.0.error == Api(MissingWallet)
    ensures r.1 == None
  {
    match RequireWallet(wallet)
    case Failure(e) => (Failure(e), wallet)
    case Success(_) => (Success(()), None)
  }

  datatype KeyKind = Sending | Viewing | Freezing

  /** The key type named by the last segment of `newkey` and `recoverkey`. */
  function KeyKindOf(keyType: string): (r: Result<KeyKind, RouteFailure>)
    ensures r == Success(Sending) <==> keyType == "send" || keyType == "sending"
    ensures r == Success(Viewing) <==> keyType == "view" || keyType == "viewing"
    ensures r == Success(Freezing) <==> keyType == "freeze" || keyType == "freezing"
    ensures r.Failure? ==> r.error == Api(Param("key type (sending, viewing or freezing)", keyType))
  {
    if keyType == "send" || keyType == "sending" then Success(Sending)
    else if keyType == "view" || keyType == "viewing" then Success(Viewing)
    else if keyType == "freeze" || keyType == "freezing" then Success(Freezing)
    else Failure(Api(Param("key type (sending, viewing or freezing)", keyType)))
  }

  /** `newkey`: the kind of key to generate in the open wallet. The missing
      wallet is reported before a bad key type. */
  function NewKey<W>(keyType: string, wallet: Option<W>): (r: Result<KeyKind, RouteFailure>)
    ensures wallet.None? ==> r == Failure(Api(MissingWallet))
    ensures wallet.Some? ==> r == KeyKindOf(keyType)
  {
    var _ :- RequireWallet(wallet);
    KeyKindOf(keyType)
  }

  /** What `recoverkey` asks the wallet for: a sending key scanning the
      event log from an index, or a viewing or freezing key. */
  datatype KeyRecovery = SendingFrom(scanFrom: nat) | ViewingKey | FreezingKey

  type UrlBindings = map<string, UrlSegmentValue>

  /** `recoverkey`: like `newkey`, and a sending key scans from the
      `:scan_from` parameter, 0 when it is absent. */
  function RecoverKey<W>(keyType: string, bindings: UrlBindings, wallet: Option<W>): (r: Result<KeyRecovery, RouteFailure>)
    ensures wallet.None? ==> r == Failure(Api(MissingWallet))
    ensures wallet.Some? && KeyKindOf(keyType).Failure? ==> r == Failure(KeyKindOf(keyType).error)
    ensures wallet.Some? && KeyKindOf(keyType) == Success(Sending) ==>
      (if ":scan_from" in bindings
       then r == (if AsUsize(bindings[":scan_from"]).Success? then Success(SendingFrom(AsUsize(bindings[":scan_from"]).value))
                  else Failure(AsUsize(bindings[":scan_from"]).error))
       else r == Success(SendingFrom(0)))
    ensures wallet.Some? && KeyKindOf(keyType) == Success(Viewing) ==> r == Success(ViewingKey)
    ensures wallet.Some? && KeyKindOf(keyType) == Success(Freezing) ==> r == Success(FreezingKey)
  {
    var _ :- RequireWallet(wallet);
    var kind :- KeyKindOf(keyType);
    match kind
    case Sending =>
      var scanFrom :- if ":scan_from" in bindings then AsUsize(bindings[":scan_from"]) else Success(0);
      Success(SendingFrom(scanFrom))
    case Viewing => Success(ViewingKey)
    case Freezing => Success(FreezingKey)
  }

  /** `newkey` and `recoverkey` accept the same key types and pick the same
      kind of key; without a `:scan_from` a recovered sending key scans
      the whole event log. */
  lemma NewKeyAndRecoverKeyAgree<W>(keyType: string, bindings: UrlBindings, wallet: Option<W>)
    requires ":scan_from" !in bindings
    ensures NewKey(keyType, wallet).Success? <==> RecoverKey(keyType, bindings, wallet).Success?
    ensures NewKey(keyType, wallet) == Success(Sending) <==> RecoverKey(keyType, bindings, wallet) == Success(SendingFrom(0))
    ensures NewKey(keyType, wallet) == Success(Viewing) <==> RecoverKey(keyType, bindings, wallet) == Success(ViewingKey)
    ensures NewKey(keyType, wallet) == Success(Freezing) <==> RecoverKey(keyType, bindings, wallet) == Success(FreezingKey)
  {
  }

  /** The account `getaccount` describes: a sending address, a viewing key
      or a freezing key. */
  datatype AccountQuery = SendingAccount(address: int) | ViewingAccount(viewingKey: int) | FreezingAccount(freezingKey: int)

  /** The deserializers `getaccount` uses, one per tag, and the address of a
      user public key. */
  datatype KeyDecoders = KeyDecoders(
    userAddress: TaggedBase64 -> Result<int, string>,
    userPubKey: TaggedBase64 -> Result<int, string>,
    pubKeyAddress: int -> int,
    auditorPubKey: TaggedBase64 -> Result<int, string>,
    freezerPubKey: TaggedBase64 -> Result<int, string>)

  const ACCOUNT_TAGS: string := "ADDR | USERPUBKEY | AUDPUBKEY | FREEZEPUBKEY"

  /** A failure of an endpoint whose required route parameter is absent,
      where indexing the bindings panics. */
  datatype GetAccountFailure = Route(failure: RouteFailure) | MissingAddress

  /** `getaccount`: the `:address` parameter must be an identifier whose tag
      names the kind of account: an address or a user public key for a
      sending account, a viewing or a freezing key. */
  function GetAccount<W>(dec: KeyDecoders, bindings: UrlBindings, wallet: Option<W>): (r: Result<AccountQuery, GetAccountFailure>)
    ensures wallet.None? ==> r == Failure(Route(Api(MissingWallet)))
    ensures wallet.Some? && ":address" !in bindings ==> r == Failure(MissingAddress)
    ensures r.Success? ==>
      && ":address" in bindings && bindings[":address"].Identifier?
      && var tag := bindings[":address"].id.tag;
      && (r.value.SendingAccount? <==> tag == "ADDR" || tag == "USERPUBKEY")
      && (r.value.ViewingAccount? <==> tag == "AUDPUBKEY")
      && (r.value.FreezingAccount? <==> tag == "FREEZEPUBKEY")
    ensures wallet.Some? && ":address" in bindings && bindings[":address"].Identifier? ==>
      var tag := bindings[":address"].id.tag;
      (tag !in {"ADDR", "USERPUBKEY", "AUDPUBKEY", "FREEZEPUBKEY"} <==>
         r == Failure(Route(Api(Tag(ACCOUNT_TAGS, tag)))))
  {
    var _ :- RequireWallet(wallet).MapFailure(f => Route(f));
    if ":address" !in bindings then Failure(MissingAddress)
    else
      var address := bindings[":address"];
      var id :- AsIdentifier(address).MapFailure(f => Route(f));
      if id.tag == "ADDR" then
        var a :- To(address, dec.userAddress).MapFailure(f => Route(f));
        Success(SendingAccount(a))
      else if id.tag == "USERPUBKEY" then
        var k :- To(address, dec.userPubKey).MapFailure(f => Route(f));
        Success(SendingAccount(dec.pubKeyAddress(k)))
      else if id.tag == "AUDPUBKEY" then
        var k :- To(address, dec.auditorPubKey).MapFailure(f => Route(f));
        Success(ViewingAccount(k))
      else if id.tag == "FREEZEPUBKEY" then
        var k :- To(address, dec.freezerPubKey).MapFailure(f => Route(f));
        Success(FreezingAccount(k))
      else Failure(Route(Api(Tag(ACCOUNT_TAGS, id.tag))))
  }

  /** With a known tag whose key deserializes, `getaccount` finds the
      account of that key; an unknown tag is the client's error. */
  lemma GetAccountDispatch<W>(dec: KeyDecoders, bindings: UrlBindings, w: W)
    requires ":address" in bindings && bindings[":address"].Identifier?
    ensures var id := bindings[":address"].id;
      var r := GetAccount(dec, bindings, Some(w));
      && (id.tag == "ADDR" && dec.userAddress(id).Success? ==> r == Success(SendingAccount(dec.userAddress(id).value)))
      && (id.tag == "USERPUBKEY" && dec.userPubKey(id).Success? ==>
            r == Success(SendingAccount(dec.pubKeyAddress(dec.userPubKey(id).value))))
      && (id.tag == "AUDPUBKEY" && dec.auditorPubKey(id).Success? ==> r == Success(ViewingAccount(dec.auditorPubKey(id).value)))
      && (id.tag == "FREEZEPUBKEY" && dec.freezerPubKey(id).Success? ==> r == Success(FreezingAccount(dec.freezerPubKey(id).value)))
      && (r.Failure? && r.error.Route? ==> FailureStatus(r.error.failure) == HTTP_BAD_REQUEST)
  {
  }
}
