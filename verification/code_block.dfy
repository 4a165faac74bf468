/**
 * The CODE block: its payload is an encoded record `{language, code}`.
 * Decoding is forgiving (text that does not parse is legacy plain code);
 * every edit re-encodes the whole record.
 */
module CodeBlock {
  import opened Wrappers
  import opened Types
  import opened Json
  import Constants

  /**
   * A decoded payload. `code` is kept as the parsed value: a stored code
   * that is truthy but not a string is carried through unchanged.
   */
  datatype CodeData = CodeData(language: string, code: Json)

  const DefaultLanguage := "javascript"

  predicate Supported(language: string) {
    language in Constants.SupportedLanguages
  }

  /** `SUPPORTED_LANGUAGES.includes(data.language) ? data.language : 'javascript'`. */
  function LanguageOf(a: Access): (language: string)
    requires !a.Throws?
    ensures Supported(language)
    ensures a.Value? && a.v.JStr? && Supported(a.v.s) ==> language == a.v.s
    ensures !(a.Value? && a.v.JStr? && Supported(a.v.s)) ==> language == DefaultLanguage
  {
    if a.Value? && a.v.JStr? && Supported(a.v.s) then a.v.s else DefaultLanguage
  }

  /** `data.code || ''`. */
  function CodeOf(a: Access): (code: Json)
    requires !a.Throws?
    ensures Truthy(a) ==> a.Value? && code == a.v
    ensures !Truthy(a) ==> code == JStr("")
  {
    if Truthy(a) then a.v else JStr("")
  }

  /**
   * The payload as the block shows it. Text that does not parse, or parses
   * to `null` (reading a field of it throws), is legacy content: all of it
   * is code, in the default language.
   */
  function Decode(content: string, parse: string -> Option<Json>): (d: CodeData)
    ensures Supported(d.language)
    ensures parse(content).None? || parse(content) == Some(JNull) ==> d == CodeData(DefaultLanguage, JStr(content))
    ensures parse(content).Some? && !parse(content).value.JNull? ==>
      d == CodeData(LanguageOf(Get(parse(content).value, "language")), CodeOf(Get(parse(content).value, "code")))
  {
    match parse(content)
    case None => CodeData(DefaultLanguage, JStr(content))
    case Some(v) =>
      if v.JNull? then CodeData(DefaultLanguage, JStr(content))
      else CodeData(LanguageOf(Get(v, "language")), CodeOf(Get(v, "code")))
  }

  /** The record handed to `JSON.stringify`. */
  function Encode(d: CodeData): (v: Json)
    ensures v.JObj? && v.fields.Keys == {"language", "code"}
    ensures Get(v, "language") == Value(JStr(d.language)) && Get(v, "code") == Value(d.code)
  {
    Object2("language", JStr(d.language), "code", d.code)
  }

  /** The shape every decoded payload has: a supported language and a truthy code or the empty string. */
  predicate Normal(d: CodeData) {
    Supported(d.language) && (Truthy(Value(d.code)) || d.code == JStr(""))
  }

  /** Decoding always yields a normal payload. */
  lemma DecodeNormal(content: string, parse: string -> Option<Json>)
    ensures Normal(Decode(content, parse))
  {
    var d := Decode(content, parse);
    if d.code != JStr("") {
      match parse(content)
      case None =>
      case Some(v) =>
    }
  }

  /** A normal payload survives an encode/decode round trip. */
  lemma DecodeEncode(d: CodeData, parse: string -> Option<Json>, stringify: Json -> string)
    requires Normal(d)
    requires RoundTrips(parse, stringify, Encode(d))
    ensures Decode(stringify(Encode(d)), parse) == d
  {
  }

  /** `{ ...block, content: JSON.stringify({ ...codeData, ...newData }) }` for one changed field. */
  function Rewrite(b: Block, d: CodeData, stringify: Json -> string): (r: Block)
    ensures r.id == b.id && r.kind == b.kind
    ensures r.content == stringify(Encode(d))
  {
    b.(content := stringify(Encode(d)))
  }

  /** The language picker changed. */
  function ChangeLanguage(b: Block, language: string, parse: string -> Option<Json>, stringify: Json -> string): (r: Block)
    ensures r.id == b.id && r.kind == b.kind
  {
    Rewrite(b, Decode(b.content, parse).(language := language), stringify)
  }

  /** The code editor changed. */
  function ChangeCode(b: Block, code: string, parse: string -> Option<Json>, stringify: Json -> string): (r: Block)
    ensures r.id == b.id && r.kind == b.kind
  {
    Rewrite(b, Decode(b.content, parse).(code := JStr(code)), stringify)
  }

  /**
   * Picking a language keeps the code; the block then reads back the picked
   * language when it is supported and the default otherwise.
   */
  lemma ChangeLanguageKeepsCode(b: Block, language: string, parse: string -> Option<Json>, stringify: Json -> string)
    requires RoundTrips(parse, stringify, Encode(Decode(b.content, parse).(language := language)))
    ensures Decode(ChangeLanguage(b, language, parse, stringify).content, parse).code == Decode(b.content, parse).code
    ensures Decode(ChangeLanguage(b, language, parse, stringify).content, parse).language ==
      if Supported(language) then language else DefaultLanguage
  {
    DecodeNormal(b.content, parse);
  }

  /** Editing the code keeps the language, and the block reads back exactly the typed code. */
  lemma ChangeCodeKeepsLanguage(b: Block, code: string, parse: string -> Option<Json>, stringify: Json -> string)
    requires RoundTrips(parse, stringify, Encode(Decode(b.content, parse).(code := JStr(code))))
    ensures Decode(ChangeCode(b, code, parse, stringify).content, parse) == Decode(b.content, parse).(code := JStr(code))
  {
    DecodeNormal(b.content, parse);
  }

  /** A legacy block is upgraded by its first edit: the old text becomes the code, in the default language. */
  lemma LegacyUpgrade(b: Block, language: string, parse: string -> Option<Json>, stringify: Json -> string)
    requires parse(b.content).None?
    requires RoundTrips(parse, stringify, Encode(CodeData(language, JStr(b.content))))
    ensures Decode(ChangeLanguage(b, language, parse, stringify).content, parse).code == JStr(b.content)
  {
    ChangeLanguageKeepsCode(b, language, parse, stringify);
  }
}
