/**
 * The `sms:` link that opens the phone's messaging app with a prepared
 * message: "sms:" + recipient + "?body=" + the percent-encoded message.
 */
module SmsLink {
  import opened Wrappers
  import opened Text
  import opened UriEncoding

  /** `phoneNumber || ''`: an absent phone number becomes the empty recipient. */
  function Recipient(phone: Option<string>): (r: string)
    ensures r == (if phone.Some? then phone.value else "")
  {
    if phone.Some? && phone.value != "" then phone.value else ""
  }

  /** `recipient ? '?' : '?'`: both branches give the same separator. */
  function Separator(recipient: string): (r: string)
    ensures r == "?"
  {
    if recipient != "" then "?" else "?"
  }

  /**
   * `createSmsLink(message, phoneNumber)`. The length check of a message
   * over 1600 characters only logs a warning, so every message gives a link.
   */
  function CreateSmsLink(message: string, phone: Option<string>): (r: string)
    ensures StartsWith(r, "sms:") && EndsWith(r, "?body=" + EncodeUriComponent(message))
  {
    var recipient := Recipient(phone);
    var e := EncodeUriComponent(message);
    LinkParts(recipient, e);
    assert ("sms:" + recipient + "?" + "body=" + e)[4 + |recipient|..] == "?body=" + e;
    "sms:" + recipient + Separator(recipient) + "body=" + e
  }

  /** The position of the first `c` in `s`, if any. */
  function IndexOf(s: string, c: char): (r: Option<nat>)
    ensures r.Some? ==> r.value < |s| && s[r.value] == c && c !in s[..r.value]
    ensures r.None? ==> c !in s
    decreases |s|
  {
    if s == [] then None
    else if s[0] == c then Some(0)
    else match IndexOf(s[1..], c)
      case None => None
      case Some(i) =>
        assert s[..i + 1] == [s[0]] + s[1..][..i];
        Some(i + 1)
  }

  /**
   * Reading an `sms:` link back: the recipient up to the first `?`, then
   * `body=` and the decoded message.
   */
  function ParseSmsLink(link: string): (r: Option<(string, string)>)
  {
    if !StartsWith(link, "sms:") then None
    else
      var rest := link[4..];
      match IndexOf(rest, '?')
      case None => None
      case Some(q) =>
        var after := rest[q + 1..];
        if !StartsWith(after, "body=") then None
        else match DecodeUriComponent(after[5..])
          case None => None
          case Some(message) => Some((rest[..q], message))
  }

  /** The layout of every link: the recipient unencoded after "sms:", then "?body=" and the encoded message. */
  lemma LinkLayout(message: string, phone: Option<string>)
    ensures var link, r := CreateSmsLink(message, phone), Recipient(phone);
            && StartsWith(link, "sms:")
            && OccursAt(link, r, 4)
            && OccursAt(link, "?body=", 4 + |r|)
            && link[10 + |r|..] == EncodeUriComponent(message)
  {
    var r := Recipient(phone);
    LinkParts(r, EncodeUriComponent(message));
  }

  /** Where the pieces of `"sms:" + r + "?" + "body=" + e` sit. */
  lemma LinkParts(r: string, e: string)
    ensures var link := "sms:" + r + "?" + "body=" + e;
            && StartsWith(link, "sms:")
            && OccursAt(link, r, 4)
            && OccursAt(link, "?body=", 4 + |r|)
            && link[10 + |r|..] == e
  {
    var link := "sms:" + r + "?" + "body=" + e;
    assert link == ("sms:" + r) + ("?body=" + e);
    assert link[..4] == "sms:";
    assert link[4..4 + |r|] == r;
    assert link[4 + |r|..10 + |r|] == "?body=";
  }

  /** The first `c` of `r + [c] + tail` is the one after `r` when `r` has none. */
  lemma IndexAfter(r: string, c: char, tail: string)
    requires c !in r
    ensures IndexOf(r + [c] + tail, c) == Some(|r|)
  {
    var s := r + [c] + tail;
    assert s[|r|] == c;
  }

  /** The suffix after "sms:" in a link and what follows its first `?`. */
  lemma ParseParts(r: string, e: string)
    requires '?' !in r
    ensures var rest := ("sms:" + r + "?" + "body=" + e)[4..];
            && IndexOf(rest, '?') == Some(|r|)
            && rest[..|r|] == r
            && StartsWith(rest[|r| + 1..], "body=")
            && rest[|r| + 1..][5..] == e
  {
    var rest := ("sms:" + r + "?" + "body=" + e)[4..];
    assert rest == r + "?" + ("body=" + e);
    IndexAfter(r, '?', "body=" + e);
    assert rest[|r| + 1..] == "body=" + e;
  }

  /** A recipient without `?` and the message are read back from the link. */
  lemma ParseCreate(message: string, phone: Option<string>)
    requires '?' !in Recipient(phone)
    ensures ParseSmsLink(CreateSmsLink(message, phone)) == Some((Recipient(phone), message))
  {
    var r := Recipient(phone);
    var e := EncodeUriComponent(message);
    assert CreateSmsLink(message, phone) == "sms:" + r + "?" + "body=" + e;
    DecodeOfEncode(message);
    ParseLink(r, e, message);
  }

  /** Reading back a link built from a recipient without `?` and a body that decodes. */
  lemma ParseLink(r: string, e: string, message: string)
    requires '?' !in r && DecodeUriComponent(e) == Some(message)
    ensures ParseSmsLink("sms:" + r + "?" + "body=" + e) == Some((r, message))
  {
    var link := "sms:" + r + "?" + "body=" + e;
    ParseParts(r, e);
    assert StartsWith(link, "sms:");
    var rest := link[4..];
    var after := rest[|r| + 1..];
    assert DecodeUriComponent(after[5..]) == Some(message);
  }

  /** Different messages, or different recipients without `?`, give different links. */
  lemma CreateInjective(m1: string, p1: Option<string>, m2: string, p2: Option<string>)
    requires '?' !in Recipient(p1) && '?' !in Recipient(p2)
    requires CreateSmsLink(m1, p1) == CreateSmsLink(m2, p2)
    ensures m1 == m2 && Recipient(p1) == Recipient(p2)
  {
    ParseCreate(m1, p1);
    ParseCreate(m2, p2);
  }

  /** No phone number, or an empty one, gives the link with an empty recipient. */
  lemma NoRecipient(message: string)
    ensures CreateSmsLink(message, None) == CreateSmsLink(message, Some(""))
                                         == "sms:?body=" + EncodeUriComponent(message)
  {
    assert Recipient(None) == Recipient(Some("")) == "";
    EmptyRecipientLink(EncodeUriComponent(message));
  }

  lemma EmptyRecipientLink(e: string)
    ensures "sms:" + "" + "?" + "body=" + e == "sms:?body=" + e
  {
  }

  lemma ExampleWithoutPhone()
    ensures CreateSmsLink("hello", None) == "sms:?body=hello"
  {
    HelloUnchanged();
    NoRecipient("hello");
  }

  lemma ExampleWithPhone()
    ensures CreateSmsLink("hello", Some("555")) == "sms:555?body=hello"
  {
    HelloUnchanged();
    assert Recipient(Some("555")) == "555";
  }

  /** The example message is made of unreserved characters only. */
  lemma HelloUnchanged()
    ensures EncodeUriComponent("hello") == "hello"
  {
    var h := "hello";
    assert forall i | 0 <= i < |h| :: IsUnreserved(h[i]) by {
      assert IsUnreserved('h') && IsUnreserved('e') && IsUnreserved('l') && IsUnreserved('o');
    }
  }
}
