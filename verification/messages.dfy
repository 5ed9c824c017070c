/** The payload-to-document conversion both generations of the output node
    share (`parseMessage`): an object goes through as it is; anything else
    is run through `JSON.parse`, and what is not an object afterwards is
    wrapped by pasting its text into `{"<root>":"<text>"}` and parsing
    that. */
module Messages {
  import opened Text
  import opened Values

  /** `JSON.parse` on a string: the parsed value, or None for a SyntaxError.
      It is a parameter of the model, not part of it. */
  type JsonParser = string -> Option<Value>

  /** A character that may stand inside a JSON string literal as it is. */
  predicate IsPlainChar(c: char) {
    c != '"' && c != '\\' && c >= ' '
  }

  predicate IsPlain(s: string) {
    forall i :: 0 <= i < |s| ==> IsPlainChar(s[i])
  }

  /** `'{"' + root + '":"' + text + '"}'`. */
  function WrapperText(root: string, text: string): (w: string)
    ensures |w| == |root| + |text| + 7
    ensures w[2..2 + |root|] == root && w[5 + |root|..5 + |root| + |text|] == text
  {
    "{\"" + root + "\":\"" + text + "\"}"
  }

  /** `JSON.parse(WrapperText(root, text))`. When neither part needs
      escaping the text is a one-member JSON object whose value is a
      string, and that is what it parses to; otherwise the parser decides,
      and a SyntaxError escapes. */
  function ParseWrapper(root: string, text: string, parse: JsonParser): (r: Result<Value>)
    ensures IsPlain(root) && IsPlain(text) ==> r == Ok(Obj([(root, Str(text))]))
    ensures !(IsPlain(root) && IsPlain(text)) ==>
              (r.Ok? <==> parse(WrapperText(root, text)).Some?)
              && (r.Ok? ==> r.value == parse(WrapperText(root, text)).value)
  {
    if IsPlain(root) && IsPlain(text) then Ok(Obj([(root, Str(text))]))
    else
      match parse(WrapperText(root, text))
      case Some(v) => Ok(v)
      case None => Throw(SyntaxError(WrapperText(root, text)))
  }

  /** `parseMessage` without the key cleaning. Inside the `try`, the first
      parse replaces the message, so when the wrap of a parsed scalar
      throws, the `catch` block wraps the same text again and throws the
      same error. */
  function ParseMessageRaw(msg: Value, root: string, parse: JsonParser): (r: Result<Value>)
    ensures IsObject(msg) ==> r == Ok(msg)
    ensures !IsObject(msg) && parse(ToJsString(msg)).Some? && IsObject(parse(ToJsString(msg)).value)
            ==> r == Ok(parse(ToJsString(msg)).value)
    ensures !IsObject(msg) && parse(ToJsString(msg)).None?
            ==> r == ParseWrapper(root, ToJsString(msg), parse)
    ensures !IsObject(msg) && parse(ToJsString(msg)).Some? && !IsObject(parse(ToJsString(msg)).value)
            ==> r == ParseWrapper(root, ToJsString(parse(ToJsString(msg)).value), parse)
  {
    if IsObject(msg) then Ok(msg)
    else
      match parse(ToJsString(msg))
      case None => ParseWrapper(root, ToJsString(msg), parse)
      case Some(v) =>
        if IsObject(v) then Ok(v) else ParseWrapper(root, ToJsString(v), parse)
  }

  /** Text that is not JSON and needs no escaping becomes a document with
      one string member named by the root. */
  lemma UnparsableTextIsWrapped(text: string, root: string, parse: JsonParser)
    requires parse(text).None?
    requires IsPlain(root) && IsPlain(text)
    ensures ParseMessageRaw(Str(text), root, parse) == Ok(Obj([(root, Str(text))]))
  {
  }

  /** A number parses to a number, which is not an object, so it is
      wrapped as a string: `5` becomes `{payload: "5"}`. */
  lemma NumberIsWrappedAsString(parse: JsonParser)
    requires parse("5") == Some(Num(5))
    ensures ParseMessageRaw(Num(5), "payload", parse) == Ok(Obj([("payload", Str("5"))]))
  {
    assert ToJsString(Num(5)) == "5";
  }

  /** A quote in unparsable text makes the wrap invalid JSON, and its
      SyntaxError escapes. */
  lemma QuoteInTextThrows(text: string, root: string, parse: JsonParser)
    requires parse(text).None?
    requires '"' in text
    requires parse(WrapperText(root, text)).None?
    ensures ParseMessageRaw(Str(text), root, parse).Throw?
  {
    var i :| 0 <= i < |text| && text[i] == '"';
    assert !IsPlainChar(text[i]);
  }

  /** Every successful conversion of plain text yields an object, whatever
      the parser makes of the text itself. */
  lemma PlainResultIsObject(msg: Value, root: string, parse: JsonParser)
    requires IsPlain(root)
    requires IsPlain(ToJsString(msg))
    requires parse(ToJsString(msg)).Some? ==> IsObject(parse(ToJsString(msg)).value)
    ensures ParseMessageRaw(msg, root, parse).Ok?
    ensures IsObject(ParseMessageRaw(msg, root, parse).value)
  {
  }
}
