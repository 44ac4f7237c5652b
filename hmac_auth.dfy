/** The HMAC gate: a GET request is authorized when its `signature` header
    holds, in hex, the HMAC-SHA256 (RFC 2104) of the request URI under the
    server's secret key. The HMAC itself is a parameter `mac(key, message)`;
    its constant-time comparison is plain equality here. */
module HmacAuth {
  import opened Base
  import opened Http
  import opened Anyhow
  import Hex

  /** The parts of an incoming request the gate reads: its method, the bytes
      of its URI as text, and the value of its `signature` header if present. */
  datatype Request = Request(verb: Method, uri: seq<byte>, signature: Option<seq<byte>>)

  /** The keyed hash: HMAC-SHA256 of a message under a key. */
  type Mac = (seq<byte>, seq<byte>) -> seq<byte>

  /** The ASCII text "12345678", the key used when none is configured at build time. */
  const DEFAULT_SECRET_KEY: seq<byte> := [0x31, 0x32, 0x33, 0x34, 0x35, 0x36, 0x37, 0x38]

  /** The message `hex` displays for a decoding error; the offending byte is
      shown as the character it stands for, between single quotes. */
  function HexErrorText(e: Hex.HexError): (t: string)
    ensures e.OddLength? <==> t == "Odd number of digits"
    ensures e.InvalidHexCharacter? ==>
              var pos := NatToString(e.index);
              |pos| < |t| && t[|t| - |pos|..] == pos && e.c as int as char in t
  {
    match e
    case OddLength => "Odd number of digits"
    case InvalidHexCharacter(c, index) =>
      var t := "Invalid character '" + [c as int as char] + "' at position " + NatToString(index);
      assert t[19] == c as int as char;
      t
  }

  /** `secret_key`: the configured hex key (or the default), decoded. */
  function SecretKey(configured: Option<seq<byte>>): (r: Result<seq<byte>, Error>)
    ensures r.Success? <==> Hex.Decode(configured.GetOr(DEFAULT_SECRET_KEY)).Success?
    ensures r.Success? ==> r.value == Hex.Decode(configured.GetOr(DEFAULT_SECRET_KEY)).value
    ensures r.Failure? ==> Unstatused(r.error)
  {
    match Hex.Decode(configured.GetOr(DEFAULT_SECRET_KEY))
    case Success(key) => Success(key)
    case Failure(e) => Failure(Context(Msg(HexErrorText(e)), Message("decoding secret key")))
  }

  /** With no key configured, the key is the four bytes 12 34 56 78. */
  lemma DefaultKey()
    ensures SecretKey(None) == Success([0x12, 0x34, 0x56, 0x78])
  {
    var s := DEFAULT_SECRET_KEY;
    var r := Hex.DecodePairs(s, 0);
    assert Hex.AllDigits(s);
    assert Hex.PairValue(s, 0) == 0x12 && Hex.PairValue(s, 1) == 0x34;
    assert Hex.PairValue(s, 2) == 0x56 && Hex.PairValue(s, 3) == 0x78;
    assert r.value == [0x12, 0x34, 0x56, 0x78];
  }

  /** `request_signature`: the decoded `signature` header, or an error carrying
      BAD_REQUEST when it is missing or is not hex. */
  function RequestSignature(req: Request): (r: Result<seq<byte>, Error>)
    ensures r.Success? <==> req.signature.Some? && Hex.Decode(req.signature.value).Success?
    ensures r.Success? ==> r.value == Hex.Decode(req.signature.value).value
    ensures r.Failure? ==> ErrorStatus(r.error) == BAD_REQUEST
  {
    if req.signature.None? then
      Failure(Context(Msg("missing Signature header"), Status(BAD_REQUEST)))
    else match Hex.Decode(req.signature.value)
      case Success(signature) => Success(signature)
      case Failure(e) => Failure(Context(Msg(HexErrorText(e)), Status(BAD_REQUEST)))
  }

  /** `handle`: it checks, in this order, the signature, the method, the key
      and the HMAC; a request passing all four is authorized. */
  function Handle(req: Request, configured: Option<seq<byte>>, mac: Mac): (r: Result<string, Error>)
    ensures r.Success? <==>
              RequestSignature(req).Success? && req.verb == GET && SecretKey(configured).Success?
              && mac(SecretKey(configured).value, req.uri) == RequestSignature(req).value
    ensures r.Success? ==> r.value == "authorized"
    ensures req.signature.None? ==> r.Failure? && ErrorStatus(r.error) == BAD_REQUEST
  {
    match RequestSignature(req)
    case Failure(e) => Failure(e)
    case Success(signature) =>
      if req.verb != GET then
        Failure(Context(Msg("unsupported method " + req.verb.name), Status(METHOD_NOT_ALLOWED)))
      else match SecretKey(configured)
        case Failure(e) => Failure(Context(e, Message("calucating secret key")))
        case Success(key) =>
          if mac(key, req.uri) != signature then
            Failure(Context(Msg("MAC tag mismatch"), Status(UNAUTHORIZED)))
          else
            Success("authorized")
  }

  datatype Body = Text(text: string) | DebugReport(error: Error)

  datatype Response = Response(status: StatusCode, body: Body)

  /** `main`: 200 with the handler's text, or the error's status (500 when it
      carries none) with its debug report. */
  function Serve(req: Request, configured: Option<seq<byte>>, mac: Mac): (resp: Response)
    ensures var h := Handle(req, configured, mac);
            && (h.Success? ==> resp == Response(OK, Text(h.value)))
            && (h.Failure? ==> resp.body == DebugReport(h.error) && resp.status == ErrorStatus(h.error))
  {
    match Handle(req, configured, mac)
    case Success(text) => Response(OK, Text(text))
    case Failure(e) => Response(ErrorStatus(e), DebugReport(e))
  }

  /** The status of every response, in the order the checks are made: 400 for
      a missing or non-hex signature whatever the method, then 405 for any
      method but GET, then 500 when the key does not decode, then 401 when the
      HMAC of the URI differs from the signature, and otherwise 200 with the
      body "authorized". */
  lemma ResponseStatus(req: Request, configured: Option<seq<byte>>, mac: Mac)
    ensures var resp := Serve(req, configured, mac);
            resp.status ==
              if req.signature.None? || Hex.Decode(req.signature.value).Failure? then BAD_REQUEST
              else if req.verb != GET then METHOD_NOT_ALLOWED
              else if SecretKey(configured).Failure? then INTERNAL_SERVER_ERROR
              else if mac(SecretKey(configured).value, req.uri) != Hex.Decode(req.signature.value).value
                then UNAUTHORIZED
              else OK
    ensures Serve(req, configured, mac).status == OK ==> Serve(req, configured, mac).body == Text("authorized")
  {
    if RequestSignature(req).Success? && req.verb == GET {
      match SecretKey(configured)
      case Failure(e) =>
        MessageContextKeepsStatus(e, "calucating secret key");
      case Success(_) =>
    }
  }

  /** A GET whose signature is what the signing tool prints for its URI (the
      hex encoding of the HMAC under the same key) is authorized. */
  lemma SignedRequestAuthorized(uri: seq<byte>, configured: Option<seq<byte>>, mac: Mac)
    requires SecretKey(configured).Success?
    ensures var sig := Hex.Encode(mac(SecretKey(configured).value, uri));
            Serve(Request(GET, uri, Some(sig)), configured, mac) == Response(OK, Text("authorized"))
  {
    Hex.DecodeEncode(mac(SecretKey(configured).value, uri));
  }
}
