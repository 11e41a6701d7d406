/** The text of an inbound message: which field it is read from, and how it
    is cleaned before the command router sees it. */
module InboundText {
  import opened Options
  import opened JsString

  /** The parts of `msg.message` the bot reads: the plain `conversation`
      text, `extendedTextMessage.text`, the legacy `text` field, and whether
      an `imageMessage` is attached. */
  datatype Content = Content(
    conversation: Option<Str>,
    extendedText: Option<Str>,
    text: Option<Str>,
    hasImage: bool)

  /** One entry of a `messages.upsert` batch: `key.remoteJid` and `message`,
      which is absent for stub messages. */
  datatype Message = Message(remoteJid: Str, content: Option<Content>)

  /** JavaScript truthiness of an optional string: present and non-empty. */
  predicate Truthy(field: Option<Str>) {
    field.Some? && field.value != []
  }

  /** `a || b || ... || ""`: the first truthy field, or the empty string when
      there is none. */
  function FirstTruthy(fields: seq<Option<Str>>): (r: Str)
    ensures r == [] <==> forall i :: 0 <= i < |fields| ==> !Truthy(fields[i])
    ensures r != [] ==> exists i :: 0 <= i < |fields| && fields[i] == Some(r)
                                   && forall j :: 0 <= j < i ==> !Truthy(fields[j])
  {
    if fields == [] then []
    else if Truthy(fields[0]) then fields[0].value
    else
      var r := FirstTruthy(fields[1..]);
      assert forall i :: 1 <= i < |fields| ==> fields[i] == fields[1..][i - 1];
      if r != [] then
        var k :| 0 <= k < |fields[1..]| && fields[1..][k] == Some(r)
                 && forall j :: 0 <= j < k ==> !Truthy(fields[1..][j]);
        assert fields[k + 1] == Some(r);
        assert forall j :: 0 <= j < k + 1 ==> !Truthy(fields[j]) by {
          forall j | 0 <= j < k + 1 ensures !Truthy(fields[j]) {
            if j > 0 { assert fields[j] == fields[1..][j - 1]; }
          }
        }
        r
      else
        r
  }

  /** The candidate text fields, in the order the bot consults them. */
  function TextFields(c: Content): seq<Option<Str>> {
    [c.conversation, c.extendedText, c.text]
  }

  /** The raw text of a message, before any cleaning. */
  function ExtractText(content: Option<Content>): Str {
    match content
    case None => []
    case Some(c) => FirstTruthy(TextFields(c))
  }

  /** `conversation` wins over `extendedTextMessage.text`, which wins over
      `text`; a message with none of them (or no content at all) reads as "". */
  lemma ExtractPrecedence(content: Option<Content>)
    ensures content.None? ==> ExtractText(content) == []
    ensures content.Some? && Truthy(content.value.conversation) ==>
              ExtractText(content) == content.value.conversation.value
    ensures content.Some? && !Truthy(content.value.conversation) && Truthy(content.value.extendedText) ==>
              ExtractText(content) == content.value.extendedText.value
    ensures content.Some? && !Truthy(content.value.conversation) && !Truthy(content.value.extendedText)
            && Truthy(content.value.text) ==>
              ExtractText(content) == content.value.text.value
    ensures content.Some? && !Truthy(content.value.conversation) && !Truthy(content.value.extendedText)
            && !Truthy(content.value.text) ==>
              ExtractText(content) == []
  {
    if content.Some? {
      var c := content.value;
      var fs := TextFields(c);
      assert fs[1..] == [c.extendedText, c.text];
      assert fs[1..][1..] == [c.text];
      assert fs[1..][1..][1..] == [];
      assert FirstTruthy(fs) == if Truthy(c.conversation) then c.conversation.value else FirstTruthy(fs[1..]);
      assert FirstTruthy(fs[1..]) == if Truthy(c.extendedText) then c.extendedText.value else FirstTruthy(fs[1..][1..]);
      assert FirstTruthy(fs[1..][1..]) == if Truthy(c.text) then c.text.value else FirstTruthy([]);
    }
  }

  /** The directional formatting characters the bot strips: LEFT-TO-RIGHT
      MARK, RIGHT-TO-LEFT MARK, FIRST STRONG ISOLATE and POP DIRECTIONAL
      ISOLATE. */
  predicate IsBidiMark(c: char) {
    c == '\U{200E}' || c == '\U{200F}' || c == '\U{2068}' || c == '\U{2069}'
  }

  predicate NoBidiMarks(s: Str) {
    forall i :: 0 <= i < |s| ==> !IsBidiMark(s[i])
  }

  /** `s.replace(/[\u200e\u200f\u2068\u2069]/g, '')`: no mark is left, and
      every character left comes from `s`. */
  function StripMarks(s: Str): (r: Str)
    ensures |r| <= |s| && NoBidiMarks(r)
    ensures forall c :: c in r ==> c in s
  {
    if s == [] then []
    else (if IsBidiMark(s[0]) then [] else [s[0]]) + StripMarks(s[1..])
  }

  /** Only marks are removed: every other character keeps its number of
      occurrences. */
  lemma {:induction false} StripMarksCounts(s: Str)
    ensures forall c :: multiset(StripMarks(s))[c] == if IsBidiMark(c) then 0 else multiset(s)[c]
  {
    if s != [] {
      var head: Str := if IsBidiMark(s[0]) then [] else [s[0]];
      assert s == [s[0]] + s[1..];
      StripMarksCounts(s[1..]);
      assert multiset(StripMarks(s)) == multiset(head) + multiset(StripMarks(s[1..]));
    }
  }

  /** Stripping works character by character: it distributes over
      concatenation. */
  lemma {:induction false} StripMarksAppend(a: Str, b: Str)
    ensures StripMarks(a + b) == StripMarks(a) + StripMarks(b)
  {
    if a == [] {
      assert a + b == b;
    } else {
      var head: Str := if IsBidiMark(a[0]) then [] else [a[0]];
      assert (a + b)[0] == a[0];
      assert (a + b)[1..] == a[1..] + b;
      assert StripMarks(a + b) == head + StripMarks(a[1..] + b);
      StripMarksAppend(a[1..], b);
      assert StripMarks(a) == head + StripMarks(a[1..]);
      assert head + (StripMarks(a[1..]) + StripMarks(b)) == (head + StripMarks(a[1..])) + StripMarks(b);
    }
  }

  /** Text without marks is left as it is. */
  lemma {:induction false} StripMarksNoop(s: Str)
    requires NoBidiMarks(s)
    ensures StripMarks(s) == s
  {
    if s != [] {
      assert NoBidiMarks(s[1..]) by {
        forall i | 0 <= i < |s[1..]| ensures !IsBidiMark(s[1..][i]) {
          assert s[1..][i] == s[i + 1];
        }
      }
      StripMarksNoop(s[1..]);
    }
  }

  /** Lines 118-123 of the bot: strip the marks first, then trim. */
  function Normalise(s: Str): (r: Str)
    ensures NoBidiMarks(r) && Trimmed(r)
  {
    var stripped := StripMarks(s);
    var r := Trim(stripped);
    assert forall i :: 0 <= i < |r| ==> r[i] in stripped;
    r
  }

  /** Text that is already clean passes through unchanged, so normalising
      twice is normalising once. */
  lemma NormaliseIdempotent(s: Str)
    ensures NoBidiMarks(s) && Trimmed(s) ==> Normalise(s) == s
    ensures Normalise(Normalise(s)) == Normalise(s)
  {
    if NoBidiMarks(s) && Trimmed(s) {
      StripMarksNoop(s);
      TrimIdempotent(s);
    }
    var t := Normalise(s);
    StripMarksNoop(t);
    TrimIdempotent(t);
  }

  /** `messageText` of the bot: the extracted text, normalised. */
  function MessageText(content: Option<Content>): Str {
    Normalise(ExtractText(content))
  }

  /** `lowerText` of the bot: still free of marks and of surrounding white
      space after lower-casing, and with no upper-case letter. */
  function LowerText(content: Option<Content>): (r: Str)
    ensures NoBidiMarks(r) && Trimmed(r)
    ensures forall i :: 0 <= i < |r| ==> !IsUpper(r[i])
    ensures |r| == |MessageText(content)|
  {
    var m := MessageText(content);
    var r := LowerCase(m);
    forall i | 0 <= i < |r| ensures !IsBidiMark(r[i]) && (IsWhitespace(r[i]) ==> r[i] == m[i]) {
      if IsUpper(m[i]) {
        LowerIsNotWhitespace(r[i]);
      }
    }
    r
  }
}
