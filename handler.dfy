/** The decision the `/generate` endpoint makes for one request: reject a
    request without a name, otherwise render the card and answer either
    with the PNG itself or with a JSON envelope around its bytes, and turn a
    failure while rendering into a server error. Rendering is an input: the
    bytes it produced or the message of the error it raised. */
module Handler {
  import opened JsText

  /** Outcome of `generateCard` followed by `canvas.toBuffer('image/png')`. */
  datatype RenderResult = Rendered(png: seq<bv8>) | Failed(message: string)

  /** What the endpoint sends. */
  datatype Body =
    | ErrorJson(error: string, message: Option<string>)
      /** `{ success: true, type: "raw-bytes", format: "image/png", size, data }`;
          `data` holds the bytes before base64 encoding. */
    | RawEnvelope(success: bool, kind: string, format: string, size: nat, data: seq<bv8>)
    | Binary(bytes: seq<bv8>)

  datatype Response = Response(status: nat, contentType: string, disposition: Option<string>, body: Body)

  const MissingNameError: string := "Name parameter is required"
  const RenderError: string := "Failed to generate ID card"
  const InlineDisposition: string := "inline; filename=\"student_id_card.png\""

  /** The response to a request with the given `name` and `rawByte`
      parameters whose card rendered as `render`. */
  function Respond(name: Param, rawByte: Param, render: RenderResult): (r: Response)
    ensures r.status == 400 <==> !Truthy(name)
    ensures r.status == 400 ==> r.body == ErrorJson(MissingNameError, None)
    ensures r.status == 500 <==> Truthy(name) && render.Failed?
    ensures r.status == 500 ==> r.body == ErrorJson(RenderError, Some(render.message))
    ensures r.status == 200 <==> Truthy(name) && render.Rendered?
    ensures r.status in {200, 400, 500}
    ensures r.body.ErrorJson? ==> r.contentType == "application/json" && r.disposition == None
    ensures r.status == 200 ==>
              (r.body.RawEnvelope? <==> LooselyEqualsOne(rawByte))
    ensures r.status == 200 && !LooselyEqualsOne(rawByte) ==> r.body == Binary(render.png)
    ensures r.body.RawEnvelope? ==>
              r.body == RawEnvelope(true, "raw-bytes", "image/png", |render.png|, render.png)
              && r.contentType == "application/json" && r.disposition == None
    ensures r.body.Binary? ==>
              r.body.bytes == render.png && r.contentType == "image/png"
              && r.disposition == Some(InlineDisposition)
  {
    if !Truthy(name) then
      Response(400, "application/json", None, ErrorJson(MissingNameError, None))
    else
      match render
      case Failed(message) =>
        Response(500, "application/json", None, ErrorJson(RenderError, Some(message)))
      case Rendered(png) =>
        if LooselyEqualsOne(rawByte) then
          Response(200, "application/json", None,
                   RawEnvelope(true, "raw-bytes", "image/png", |png|, png))
        else
          Response(200, "image/png", Some(InlineDisposition), Binary(png))
  }

  /** The bytes of a successful response, in either form. */
  function Payload(r: Response): (bytes: Option<seq<bv8>>)
    ensures bytes.Some? <==> !r.body.ErrorJson?
  {
    match r.body
    case ErrorJson(_, _) => None
    case RawEnvelope(_, _, _, _, data) => Some(data)
    case Binary(bytes) => Some(bytes)
  }

  /** The `rawByte` flag changes only the packaging: both forms carry the
      same image, and the envelope's `size` is its length. */
  lemma SameImageEitherWay(name: Param, rawByte: Param, png: seq<bv8>)
    requires Truthy(name)
    ensures Payload(Respond(name, rawByte, Rendered(png))) == Some(png)
    ensures Payload(Respond(name, rawByte, Rendered(png))) == Payload(Respond(name, Absent, Rendered(png)))
  {
  }

  /** The name check comes before rendering: a request without a name is
      answered with 400 whatever rendering would have done. */
  lemma NameCheckFirst(name: Param, rawByte: Param, render: RenderResult, other: RenderResult)
    requires !Truthy(name)
    ensures Respond(name, rawByte, render) == Respond(name, rawByte, other)
  {
  }

  /** Which `rawByte` values ask for the envelope: the number 1 and its
      decimal text; no flag, the number 0 or other numbers give the PNG. */
  lemma RawByteFlag(name: Param, png: seq<bv8>, n: int)
    requires Truthy(name)
    ensures Respond(name, Integer(n), Rendered(png)).body.RawEnvelope? <==> n == 1
    ensures Respond(name, Text(IntText(n)), Rendered(png)).body.RawEnvelope? <==> n == 1
    ensures Respond(name, Absent, Rendered(png)).body.Binary?
  {
    IntTextEqualsOneIff(n);
  }

  /** A string `rawByte` asks for the envelope exactly when its numeric
      value is 1. */
  lemma RawByteText(name: Param, png: seq<bv8>, s: string)
    requires Truthy(name)
    ensures Respond(name, Text(s), Rendered(png)).body.RawEnvelope? <==> TextEqualsOne(s)
  {
  }

  /** `rawByte == 1` compares a string by its numeric value: surrounding
      white space, a fraction of zeros and a hexadecimal literal still equal
      1, while a word does not. */
  lemma LooseOneExamples()
    ensures TextEqualsOne(" 1 ") && TextEqualsOne("1.0") && TextEqualsOne("0x1")
    ensures !TextEqualsOne("true")
  {
    SpacedOne();
    FractionOne();
    HexOne();
    WordIsNotOne();
  }
  lemma SpacedOne() ensures TextEqualsOne(" 1 ") {
    assert LeadingSpaces(" 1 ") == 1;
    assert TrailingSpaces("1 ") == 1;
    assert Trim(" 1 ") == "1";
    assert DigitRun("1", 10) == 1;
  }

  lemma FractionOne() ensures TextEqualsOne("1.0") {
    TrimKeeps("1.0");
    PlainLiteral("1.0");
    FractionLiteral();
  }

  lemma FractionLiteral() ensures DecimalLiteralIsOne("1.0") {
    var u := "1.0";
    assert DigitRun(u[1..], 10) == 0;
    assert DigitRun(u, 10) == 1;
    assert u[2..] == "0";
    assert DigitRun("0", 10) == 1;
    assert "0"[1..] == [];
    assert u[..1] + "0" == "10";
    assert "10"[..1] == "1";
    assert Value("10", 10) == 10;
  }

  lemma HexOne() ensures TextEqualsOne("0x1") {
    TrimKeeps("0x1");
    assert DigitRun("1", 16) == 1;
  }

  lemma WordIsNotOne() ensures !TextEqualsOne("true") {
    TrimKeeps("true");
    assert DigitRun("true", 10) == 0;
  }
}
