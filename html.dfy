/**
 * What Python's `html.parser.HTMLParser` hands to its handlers: start
 * tags with their attributes, end tags and text. A self-closing tag such
 * as `<br />` arrives as its start tag followed by its end tag; character
 * references are already resolved in the text and in attribute values.
 */
module Html {
  import opened Wrappers
  import opened Text

  /** An attribute: its name and its value (`None` for a bare attribute). */
  type Attr = (string, Option<string>)

  datatype HtmlEvent =
    | StartTag(tag: string, attrs: seq<Attr>)
    | EndTag(tag: string)
    | Data(text: string)

  /** The value of the first attribute named "style" (in any case) that has a value, else "". */
  function StyleOf(attrs: seq<Attr>): (r: string)
    ensures r != "" ==> exists i :: 0 <= i < |attrs| && Lower(attrs[i].0) == "style" && attrs[i].1 == Some(r)
    ensures (forall i :: 0 <= i < |attrs| ==> Lower(attrs[i].0) != "style" || attrs[i].1.None?) ==> r == ""
  {
    if attrs == [] then ""
    else if Lower(attrs[0].0) == "style" && attrs[0].1.Some? then attrs[0].1.value
    else
      var r := StyleOf(attrs[1..]);
      assert forall i :: 0 <= i < |attrs| - 1 ==> attrs[1..][i] == attrs[i + 1];
      r
  }

  /** The attribute loop of the bold-aware parser: the first "style" attribute with a value. */
  method FindStyle(attrs: seq<Attr>) returns (style: string)
    ensures style == StyleOf(attrs)
  {
    style := "";
    var i := 0;
    while i < |attrs|
      invariant i <= |attrs| && StyleOf(attrs) == StyleOf(attrs[i..])
    {
      var (k, v) := attrs[i];
      assert attrs[i..][1..] == attrs[i + 1..];
      if Lower(k) == "style" && v.Some? {
        style := v.value;
        return;
      }
      i := i + 1;
    }
  }

  /** Lower-case letters stay as they are. */
  lemma {:induction false} LowerOfLowercase(s: string)
    requires forall i :: 0 <= i < |s| ==> 'a' <= s[i] <= 'z'
    ensures Lower(s) == s
  {
  }

  /** The tag names of the Plasma body are already lower-case. */
  lemma LowerBlockTags()
    ensures Lower("p") == "p" && Lower("li") == "li" && Lower("br") == "br" && Lower("body") == "body"
  {
    LowerOfLowercase("p");
    LowerOfLowercase("li");
    LowerOfLowercase("br");
    LowerOfLowercase("body");
  }

  /** The tag names of the Plasma header are already lower-case. */
  lemma LowerHeadTags()
    ensures Lower("html") == "html" && Lower("head") == "head" && Lower("meta") == "meta" && Lower("style") == "style"
  {
    LowerOfLowercase("html");
    LowerOfLowercase("head");
    LowerOfLowercase("meta");
    LowerOfLowercase("style");
  }

  /** The tag names that carry bold are already lower-case. */
  lemma LowerBoldTags()
    ensures Lower("font") == "font" && Lower("b") == "b" && Lower("strong") == "strong" && Lower("span") == "span"
  {
    LowerOfLowercase("font");
    LowerOfLowercase("b");
    LowerOfLowercase("strong");
    LowerOfLowercase("span");
  }
}
