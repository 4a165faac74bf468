/**
 * The TODO block: its payload is an encoded record `{checked, text}`.
 * Fields of the wrong type fall back to their defaults; every edit
 * re-encodes the whole record.
 */
module TodoBlock {
  import opened Wrappers
  import opened Types
  import opened Json

  datatype TodoData = TodoData(checked: bool, text: string)

  /** What a payload that cannot be read shows: an unchecked, empty item. */
  const Blank := TodoData(false, "")

  /**
   * The payload as the block shows it. `checked` is taken only when it is a
   * boolean and `text` only when it is a string; a payload that does not
   * parse, or parses to `null`, shows as a blank item.
   */
  function Decode(content: string, parse: string -> Option<Json>): (d: TodoData)
    ensures parse(content).None? || parse(content) == Some(JNull) ==> d == Blank
    ensures forall checked: bool, text: string ::
      parse(content) == Some(JObj(map["checked" := JBool(checked), "text" := JStr(text)])) ==> d == TodoData(checked, text)
    ensures parse(content).Some? && !parse(content).value.JNull? ==>
      (d.checked <==> Get(parse(content).value, "checked") == Value(JBool(true)))
    ensures parse(content).Some? && !(Get(parse(content).value, "text").Value? && Get(parse(content).value, "text").v.JStr?) ==>
      d.text == ""
    ensures parse(content).Some? && Get(parse(content).value, "text").Value? && Get(parse(content).value, "text").v.JStr? ==>
      d.text == Get(parse(content).value, "text").v.s
  {
    match parse(content)
    case None => Blank
    case Some(v) =>
      if v.JNull? then Blank
      else
        var c := Get(v, "checked");
        var t := Get(v, "text");
        TodoData(c.Value? && c.v.JBool? && c.v.b, if t.Value? && t.v.JStr? then t.v.s else "")
  }

  /** The record handed to `JSON.stringify`. */
  function Encode(d: TodoData): (v: Json)
    ensures v.JObj? && v.fields.Keys == {"checked", "text"}
    ensures Get(v, "checked") == Value(JBool(d.checked)) && Get(v, "text") == Value(JStr(d.text))
  {
    Object2("checked", JBool(d.checked), "text", JStr(d.text))
  }

  /** Every item survives an encode/decode round trip. */
  lemma DecodeEncode(d: TodoData, parse: string -> Option<Json>, stringify: Json -> string)
    requires RoundTrips(parse, stringify, Encode(d))
    ensures Decode(stringify(Encode(d)), parse) == d
  {
  }

  /** The text field changed. */
  function ChangeText(b: Block, text: string, parse: string -> Option<Json>, stringify: Json -> string): (r: Block)
    ensures r.id == b.id && r.kind == b.kind
    ensures r.content == stringify(Encode(TodoData(Decode(b.content, parse).checked, text)))
  {
    b.(content := stringify(Encode(Decode(b.content, parse).(text := text))))
  }

  /** The checkbox changed. */
  function ChangeChecked(b: Block, checked: bool, parse: string -> Option<Json>, stringify: Json -> string): (r: Block)
    ensures r.id == b.id && r.kind == b.kind
    ensures r.content == stringify(Encode(TodoData(checked, Decode(b.content, parse).text)))
  {
    b.(content := stringify(Encode(Decode(b.content, parse).(checked := checked))))
  }

  /** Editing the text keeps the check mark; the block reads back the typed text. */
  lemma ChangeTextKeepsChecked(b: Block, text: string, parse: string -> Option<Json>, stringify: Json -> string)
    requires RoundTrips(parse, stringify, Encode(Decode(b.content, parse).(text := text)))
    ensures Decode(ChangeText(b, text, parse, stringify).content, parse) == TodoData(Decode(b.content, parse).checked, text)
  {
    DecodeEncode(Decode(b.content, parse).(text := text), parse, stringify);
  }

  /** Ticking the box keeps the text; ticking it back restores the original record. */
  lemma ChangeCheckedKeepsText(b: Block, checked: bool, parse: string -> Option<Json>, stringify: Json -> string)
    requires RoundTrips(parse, stringify, Encode(Decode(b.content, parse).(checked := checked)))
    requires RoundTrips(parse, stringify, Encode(Decode(b.content, parse)))
    ensures Decode(ChangeChecked(b, checked, parse, stringify).content, parse) == TodoData(checked, Decode(b.content, parse).text)
    ensures var once := ChangeChecked(b, checked, parse, stringify);
      Decode(ChangeChecked(once, Decode(b.content, parse).checked, parse, stringify).content, parse) == Decode(b.content, parse)
  {
    var d := Decode(b.content, parse);
    DecodeEncode(d.(checked := checked), parse, stringify);
    DecodeEncode(d, parse, stringify);
  }
}
