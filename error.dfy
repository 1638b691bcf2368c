/**
 * The errors of reading a deck document (`crates/app/src/format/error.rs`):
 * the error kinds, their human-readable messages, and the two ways an `Error`
 * is made, from a kind or from an error of the XML parser.
 */
module Errors {
  import opened Text

  /** `ErrorKind`. `InvalidAttribueValue` keeps the source's spelling. */
  datatype Kind =
    | MissingDeckName
    | UnexpectedTag(expected: string, actual: string)
    | InvalidAttribueValue(tag: string, attribute: string, value: string, allowed: seq<string>)
    | Parse

  /**
   * The part of the XML parser's error the conversion looks at: a mismatched
   * closing tag, or anything else. `text` is what the parser's own error
   * message reads; its wording belongs to the parser.
   */
  datatype XmlError =
    | UnexpectedCloseTag(expected: string, actual: string, text: string)
    | OtherXmlError(text: string)

  /** `Error`: the kind, and the report whose message the error displays. */
  datatype Error = Error(kind: Kind, report: string)

  /** `{:?}` of a string without quotes or backslashes in it. */
  function Quoted(s: string): string {
    "\"" + s + "\""
  }

  /** `{:?}` of a slice of strings: `["a", "b"]`. */
  function DebugList(items: seq<string>): string {
    "[" + DebugItems(items) + "]"
  }

  function DebugItems(items: seq<string>): string {
    if items == [] then ""
    else if |items| == 1 then Quoted(items[0])
    else Quoted(items[0]) + ", " + DebugItems(items[1..])
  }

  const MISSING_DECK_NAME_MESSAGE: string := "the deck has no name attribute set like " + "<deck name=\"example\">...</deck>"
  const PARSE_MESSAGE: string := "couldn't parse the xml file"

  /** `impl Display for ErrorKind`. */
  function KindMessage(k: Kind): (s: string)
    ensures k.MissingDeckName? ==> s == MISSING_DECK_NAME_MESSAGE
    ensures k.Parse? ==> s == PARSE_MESSAGE
    ensures k.UnexpectedTag? ==> StartsWith(s, "expected ")
    ensures k.InvalidAttribueValue? ==> StartsWith(s, "invalid value for attribute: <")
  {
    match k
    case MissingDeckName => MISSING_DECK_NAME_MESSAGE
    case UnexpectedTag(expected, actual) => "expected " + expected + ", but got " + actual
    case Parse => PARSE_MESSAGE
    case InvalidAttribueValue(tag, attribute, value, allowed) =>
      "invalid value for attribute: <" + tag + " ... " + attribute + "=\"" + value
        + "\" ... />, allowed values are " + DebugList(allowed)
  }

  /** `impl Display for Error`: the report's message. */
  function Display(e: Error): string {
    e.report
  }

  /** `impl From<ErrorKind> for Error`: the report is the kind's own message. */
  function FromKind(k: Kind): (e: Error)
    ensures e.kind == k
    ensures Display(e) == KindMessage(k)
  {
    Error(k, KindMessage(k))
  }

  /**
   * `impl From<roxmltree::Error> for Error`: a mismatched closing tag keeps
   * both tag names, every other parser error is a `Parse`; the message is the
   * parser's own.
   */
  function FromXml(x: XmlError): (e: Error)
    ensures x.UnexpectedCloseTag? ==> e.kind == UnexpectedTag(x.expected, x.actual)
    ensures x.OtherXmlError? ==> e.kind == Parse
    ensures Display(e) == x.text
  {
    match x
    case UnexpectedCloseTag(expected, actual, text) => Error(UnexpectedTag(expected, actual), text)
    case OtherXmlError(text) => Error(Parse, text)
  }

  /** The first character of a message tells which kind it came from. */
  function KindInitial(k: Kind): char {
    match k
    case MissingDeckName => 't'
    case UnexpectedTag(_, _) => 'e'
    case Parse => 'c'
    case InvalidAttribueValue(_, _, _, _) => 'i'
  }

  lemma MessageInitial(k: Kind)
    ensures |KindMessage(k)| > 0 && KindMessage(k)[0] == KindInitial(k)
  {
    match k
    case MissingDeckName => assert MISSING_DECK_NAME_MESSAGE[0] == 't';
    case UnexpectedTag(_, _) => assert KindMessage(k)[..9] == "expected ";
    case Parse => assert PARSE_MESSAGE[0] == 'c';
    case InvalidAttribueValue(_, _, _, _) => assert KindMessage(k)[..30] == "invalid value for attribute: <";
  }

  /** Two kinds of different variants never render the same message. */
  lemma MessagesTellKindsApart(k1: Kind, k2: Kind)
    requires KindMessage(k1) == KindMessage(k2)
    ensures KindInitial(k1) == KindInitial(k2)
    ensures k1.MissingDeckName? <==> k2.MissingDeckName?
    ensures k1.UnexpectedTag? <==> k2.UnexpectedTag?
    ensures k1.Parse? <==> k2.Parse?
    ensures k1.InvalidAttribueValue? <==> k2.InvalidAttribueValue?
  {
    MessageInitial(k1);
    MessageInitial(k2);
  }

  /** The theme error of a deck lists the allowed values as `["light", "dark"]`. */
  lemma ThemeAllowedDebug()
    ensures DebugList(["light", "dark"]) == "[\"light\", \"dark\"]"
  {
    assert ["light", "dark"][1..] == ["dark"];
  }
}
