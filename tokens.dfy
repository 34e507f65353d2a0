/** What the HTML tokenizer hands the analyser: a finite run of tokens, closed
    by an error token that is either a clean end of input or a real failure. */
module Tokens {

  datatype Option<T> = None | Some(value: T)

  datatype Attribute = Attribute(key: string, val: string)

  /** One token event. Tag names arrive lower-cased from the tokenizer; text,
      comment and doctype payloads arrive already unescaped. A tag written
      `<x/>` is its own kind of token, distinct from a start tag. */
  datatype Token =
    | StartTag(name: string, attrs: seq<Attribute>)
    | SelfClosingTag(name: string, attrs: seq<Attribute>)
    | EndTag(name: string)
    | Text(data: string)
    | Comment(data: string)
    | Doctype(data: string)

  /** How the stream ends: `io.EOF`, or any other tokenizer error. */
  datatype Terminal = EOF | Failure(err: string)

  datatype Stream = Stream(tokens: seq<Token>, end: Terminal)

  /** `Token().Data`: the tag name for tags, the payload otherwise. */
  function Data(t: Token): string {
    match t
    case StartTag(name, _) => name
    case SelfClosingTag(name, _) => name
    case EndTag(name) => name
    case Text(data) => data
    case Comment(data) => data
    case Doctype(data) => data
  }

  /** The value of the first attribute named `key`, or "" when there is none:
      what the analyser's `for _, attr := range token.Attr` loops compute. */
  function AttrVal(attrs: seq<Attribute>, key: string): (v: string)
    ensures (forall i | 0 <= i < |attrs| :: attrs[i].key != key) ==> v == ""
    ensures forall i | 0 <= i < |attrs| && attrs[i].key == key
              && (forall j | 0 <= j < i :: attrs[j].key != key) :: v == attrs[i].val
  {
    if attrs == [] then ""
    else if attrs[0].key == key then attrs[0].val
    else AttrVal(attrs[1..], key)
  }

  /** The attribute scan itself: stop at the first attribute whose key matches. */
  method LookupAttr(attrs: seq<Attribute>, key: string) returns (val: string)
    ensures val == AttrVal(attrs, key)
  {
    val := "";
    var i := 0;
    while i < |attrs|
      invariant 0 <= i <= |attrs|
      invariant forall j | 0 <= j < i :: attrs[j].key != key
    {
      if attrs[i].key == key {
        val := attrs[i].val;
        return;
      }
      i := i + 1;
    }
  }
}
