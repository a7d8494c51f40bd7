/**
 * `MusicApp.sendSongRequest`: checks the two form fields and builds the WhatsApp link
 * that `window.open` hands off. Beside the builder as written stands a model of how the
 * receiving side reads the `text` query value, and a builder that percent-encodes the
 * user's text, which is what the hand-encoded `%0A%0A` in the template shows was meant.
 */
module SongRequest {
  import opened Wrappers
  import Text

  const WhatsAppBase: string := "https://wa.me/94767546714?text="
  const RequestLabel: string := "Song Request: "
  const DescriptionLabel: string := "Description: "
  /** The blank line between the two parts, as the template writes it: already encoded. */
  const EncodedBreak: string := "%0A%0A"

  /** The message the request is meant to carry. */
  function IntendedMessage(songName: string, description: string): string {
    (RequestLabel + songName) + ("\n\n" + (DescriptionLabel + description))
  }

  /** Characters that a query value must not carry literally for this message to survive. */
  predicate Reserved(c: char) {
    c == '%' || c == '&' || c == '#' || c == '+' || c == '\n' || c == '\r' || c == '\t'
  }

  predicate Plain(s: string) {
    forall k :: 0 <= k < |s| ==> !Reserved(s[k])
  }

  // ---------------------------------------------------------------------------------
  // The receiving side: the `text` value runs up to the next `&` (next parameter) or `#`
  // (fragment), and is then percent-decoded, with `+` read as a space.

  function QueryValue(s: string): (r: string)
    ensures Text.StartsWith(s, r)
    ensures '&' !in r && '#' !in r
  {
    if s == [] || s[0] == '&' || s[0] == '#' then [] else [s[0]] + QueryValue(s[1..])
  }

  predicate IsHexDigit(c: char) {
    '0' <= c <= '9' || 'A' <= c <= 'F' || 'a' <= c <= 'f'
  }

  function HexValue(c: char): (v: nat)
    requires IsHexDigit(c)
    ensures v < 16
  {
    if '0' <= c <= '9' then c as int - '0' as int
    else if 'A' <= c <= 'F' then c as int - 'A' as int + 10
    else c as int - 'a' as int + 10
  }

  function PercentDecode(s: string): (r: string)
    ensures |r| <= |s|
  {
    if s == [] then []
    else if |s| >= 3 && s[0] == '%' && IsHexDigit(s[1]) && IsHexDigit(s[2]) then
      [(HexValue(s[1]) * 16 + HexValue(s[2])) as char] + PercentDecode(s[3..])
    else if s[0] == '+' then [' '] + PercentDecode(s[1..])
    else [s[0]] + PercentDecode(s[1..])
  }

  /** The text the recipient of `url` reads, if `url` is a link to this recipient. */
  function ReceivedText(url: string): Option<string> {
    if Text.StartsWith(url, WhatsAppBase) then Some(PercentDecode(QueryValue(url[|WhatsAppBase|..])))
    else None
  }

  lemma {:induction false} QueryValueAppend(a: string, b: string)
    requires '&' !in a && '#' !in a
    ensures QueryValue(a + b) == a + QueryValue(b)
  {
    if a == [] {
      assert a + b == b;
    } else {
      assert (a + b)[0] == a[0] && (a + b)[1..] == a[1..] + b;
      assert a == [a[0]] + a[1..];
      QueryValueAppend(a[1..], b);
    }
  }

  lemma {:induction false} DecodePlainPrefix(a: string, b: string)
    requires Plain(a)
    ensures PercentDecode(a + b) == a + PercentDecode(b)
  {
    if a == [] {
      assert a + b == b;
    } else {
      assert (a + b)[0] == a[0] && (a + b)[1..] == a[1..] + b;
      assert a == [a[0]] + a[1..];
      assert !Reserved(a[0]);
      DecodePlainPrefix(a[1..], b);
    }
  }

  lemma PlainAppend(a: string, b: string)
    requires Plain(a) && Plain(b)
    ensures Plain(a + b)
  {
    forall k | 0 <= k < |a + b| ensures !Reserved((a + b)[k]) {
      if k >= |a| {
        assert (a + b)[k] == b[k - |a|];
      }
    }
  }

  lemma PrefixOfAppend(a: string, b: string)
    ensures Text.StartsWith(a + b, a)
  {
    assert (a + b)[..|a|] == a;
  }

  // ---------------------------------------------------------------------------------
  // The builder as written: the trimmed fields are pasted into the link unencoded.

  /** The `message` template: label, name, encoded blank line, label, description. */
  function RequestText(songName: string, description: string): string {
    (RequestLabel + songName) + (EncodedBreak + (DescriptionLabel + description))
  }

  /** `sendSongRequest`: `None` (the source alerts) when either trimmed field is empty;
      otherwise the recipient's link with the message pasted in as it is. */
  function RequestUrl(songNameInput: string, descriptionInput: string): (r: Option<string>)
    ensures r.None? <==> Text.IsBlank(songNameInput) || Text.IsBlank(descriptionInput)
  {
    var songName := Text.Trim(songNameInput);
    var description := Text.Trim(descriptionInput);
    if songName == [] || description == [] then None
    else Some(WhatsAppBase + RequestText(songName, description))
  }

  /** What the recipient reads from a link to it is the decoded `text` value. */
  lemma ReceivedFromRecipient(query: string)
    ensures ReceivedText(WhatsAppBase + query) == Some(PercentDecode(QueryValue(query)))
  {
    var base := WhatsAppBase;
    PrefixOfAppend(base, query);
    assert (base + query)[|base|..] == query;
  }

  lemma {:induction false} QueryValueWhole(a: string)
    requires '&' !in a && '#' !in a
    ensures QueryValue(a) == a
  {
    QueryValueAppend(a, []);
    assert a + [] == a;
  }

  lemma PlainHasNoDelimiter(s: string)
    requires Plain(s)
    ensures '&' !in s && '#' !in s
  {
  }

  lemma DecodeBreak(t: string)
    ensures PercentDecode(EncodedBreak + t) == "\n\n" + PercentDecode(t)
  {
    assert EncodedBreak + t == EscapeChar('\n') + (EscapeChar('\n') + t);
    DecodeEscapeChar('\n', EscapeChar('\n') + t);
    DecodeEscapeChar('\n', t);
  }

  /** With plain text around it, the whole template is one `text` value. */
  lemma TemplateIsOneValue(a: string, c: string)
    requires Plain(a) && Plain(c)
    ensures QueryValue(a + (EncodedBreak + c)) == a + (EncodedBreak + c)
  {
    PlainHasNoDelimiter(a);
    PlainHasNoDelimiter(c);
    var brk := EncodedBreak;
    assert '&' !in brk && '#' !in brk;
    QueryValueWhole(a + (brk + c));
  }

  /** With plain text around it, only the encoded blank line changes on decoding. */
  lemma TemplateDecodes(a: string, c: string)
    requires Plain(a) && Plain(c)
    ensures PercentDecode(a + (EncodedBreak + c)) == a + ("\n\n" + c)
  {
    DecodePlainPrefix(a, EncodedBreak + c);
    DecodeBreak(c);
    DecodePlainPrefix(c, []);
    assert c + [] == c;
  }

  lemma LabelsArePlain()
    ensures Plain(RequestLabel) && Plain(DescriptionLabel)
  {
  }

  lemma RequestTextDelivers(n: string, d: string)
    requires Plain(n) && Plain(d)
    ensures ReceivedText(WhatsAppBase + RequestText(n, d)) == Some(IntendedMessage(n, d))
  {
    ReceivedFromRecipient(RequestText(n, d));
    LabelsArePlain();
    PlainAppend(RequestLabel, n);
    PlainAppend(DescriptionLabel, d);
    TemplateIsOneValue(RequestLabel + n, DescriptionLabel + d);
    TemplateDecodes(RequestLabel + n, DescriptionLabel + d);
  }

  /** For ordinary text the link as written delivers the intended message. */
  lemma RequestUrlDeliversPlainText(songNameInput: string, descriptionInput: string)
    requires !Text.IsBlank(songNameInput) && !Text.IsBlank(descriptionInput)
    requires Plain(Text.Trim(songNameInput)) && Plain(Text.Trim(descriptionInput))
    ensures RequestUrl(songNameInput, descriptionInput).Some?
    ensures ReceivedText(RequestUrl(songNameInput, descriptionInput).value)
            == Some(IntendedMessage(Text.Trim(songNameInput), Text.Trim(descriptionInput)))
  {
    RequestTextDelivers(Text.Trim(songNameInput), Text.Trim(descriptionInput));
  }

  /** Whatever follows an `&` after a plain head is lost to the recipient. */
  lemma CutAtAmpersand(head: string, rest: string)
    requires Plain(head) && rest != [] && rest[0] == '&'
    ensures ReceivedText(WhatsAppBase + (head + rest)) == Some(head)
  {
    ReceivedFromRecipient(head + rest);
    PlainHasNoDelimiter(head);
    QueryValueAppend(head, rest);
    assert QueryValue(rest) == [];
    assert head + [] == head;
    DecodePlainPrefix(head, []);
  }

  /** A song name with an `&` after a plain start reaches the recipient as that start only. */
  lemma AmpersandInNameCuts(start: string, more: string, d: string)
    requires Plain(start)
    ensures ReceivedText(WhatsAppBase + RequestText(start + ("&" + more), d)) == Some(RequestLabel + start)
  {
    var head := RequestLabel + start;
    var rest := "&" + (more + (EncodedBreak + (DescriptionLabel + d)));
    assert RequestText(start + ("&" + more), d) == head + rest;
    LabelsArePlain();
    PlainAppend(RequestLabel, start);
    CutAtAmpersand(head, rest);
  }

  lemma RequestUrlOfTrimmed(n: string, d: string)
    requires n != [] && !Text.IsWhitespace(n[0]) && !Text.IsWhitespace(n[|n| - 1])
    requires d != [] && !Text.IsWhitespace(d[0]) && !Text.IsWhitespace(d[|d| - 1])
    ensures RequestUrl(n, d) == Some(WhatsAppBase + RequestText(n, d))
  {
    Text.TrimUntouched(n);
    Text.TrimUntouched(d);
  }

  /** The request for "R&B" arrives as "Song Request: R". */
  lemma AmpersandCutsRequest()
    ensures RequestUrl("R&B", "Love").Some?
    ensures ReceivedText(RequestUrl("R&B", "Love").value) == Some("Song Request: R")
    ensures ReceivedText(RequestUrl("R&B", "Love").value) != Some(IntendedMessage("R&B", "Love"))
  {
    var n, d := "R&B", "Love";
    RequestUrlOfTrimmed(n, d);
    assert n == "R" + ("&" + "B");
    AmpersandInNameCuts("R", "B", d);
    var got := RequestLabel + "R";
    assert got == "Song Request: R";
    assert |IntendedMessage(n, d)| > |got|;
  }

  // ---------------------------------------------------------------------------------
  // The builder with the user's text percent-encoded.

  function EscapeChar(c: char): (r: string)
    ensures !Reserved(c) ==> r == [c]
  {
    if c == '%' then "%25"
    else if c == '&' then "%26"
    else if c == '#' then "%23"
    else if c == '+' then "%2B"
    else if c == '\n' then "%0A"
    else if c == '\r' then "%0D"
    else if c == '\t' then "%09"
    else [c]
  }

  /** Percent-encodes the reserved characters; the result never holds `&`, `#` or `+`. */
  function Encode(s: string): (r: string)
    ensures '&' !in r && '#' !in r && '+' !in r
  {
    if s == [] then [] else EscapeChar(s[0]) + Encode(s[1..])
  }

  lemma {:induction false} EncodeAppend(a: string, b: string)
    ensures Encode(a + b) == Encode(a) + Encode(b)
  {
    if a == [] {
      assert a + b == b;
    } else {
      assert (a + b)[0] == a[0] && (a + b)[1..] == a[1..] + b;
      EncodeAppend(a[1..], b);
    }
  }

  lemma {:induction false} EncodePlain(s: string)
    requires Plain(s)
    ensures Encode(s) == s
  {
    if s != [] {
      assert !Reserved(s[0]);
      EncodePlain(s[1..]);
    }
  }

  lemma DecodeEscapeChar(c: char, t: string)
    ensures PercentDecode(EscapeChar(c) + t) == [c] + PercentDecode(t)
  {
    var e := EscapeChar(c);
    if Reserved(c) {
      assert |e| == 3 && e[0] == '%';
      assert (e + t)[3..] == t;
    } else {
      assert (e + t)[1..] == t;
    }
  }

  /** Decoding undoes encoding, for every string. */
  lemma {:induction false} DecodeEncode(s: string)
    ensures PercentDecode(Encode(s)) == s
  {
    if s != [] {
      DecodeEscapeChar(s[0], Encode(s[1..]));
      DecodeEncode(s[1..]);
    }
  }

  /** `sendSongRequest` with the message percent-encoded before it goes into the link. */
  function EncodedRequestUrl(songNameInput: string, descriptionInput: string): (r: Option<string>)
    ensures r.None? <==> Text.IsBlank(songNameInput) || Text.IsBlank(descriptionInput)
  {
    var songName := Text.Trim(songNameInput);
    var description := Text.Trim(descriptionInput);
    if songName == [] || description == [] then None
    else Some(WhatsAppBase + Encode(IntendedMessage(songName, description)))
  }

  /** Every accepted request arrives intact. */
  lemma EncodedRequestDelivered(songNameInput: string, descriptionInput: string)
    requires !Text.IsBlank(songNameInput) && !Text.IsBlank(descriptionInput)
    ensures EncodedRequestUrl(songNameInput, descriptionInput).Some?
    ensures ReceivedText(EncodedRequestUrl(songNameInput, descriptionInput).value)
            == Some(IntendedMessage(Text.Trim(songNameInput), Text.Trim(descriptionInput)))
  {
    var m := Encode(IntendedMessage(Text.Trim(songNameInput), Text.Trim(descriptionInput)));
    var url := WhatsAppBase + m;
    assert url[|WhatsAppBase|..] == m;
    QueryValueAppend(m, []);
    assert m + [] == m;
    DecodeEncode(IntendedMessage(Text.Trim(songNameInput), Text.Trim(descriptionInput)));
  }

  lemma EncodeBlankLine()
    ensures Encode("\n\n") == EncodedBreak
  {
    assert "\n\n"[1..] == "\n";
    assert "\n"[1..] == [];
  }

  /** Encoding plain text around a blank line only encodes the blank line. */
  lemma EncodeTemplate(a: string, c: string)
    requires Plain(a) && Plain(c)
    ensures Encode(a + ("\n\n" + c)) == a + (EncodedBreak + c)
  {
    EncodeAppend(a, "\n\n" + c);
    EncodeAppend("\n\n", c);
    EncodePlain(a);
    EncodePlain(c);
    EncodeBlankLine();
  }

  /** Encoding the intended message of plain fields gives the source's template. */
  lemma EncodeIntended(n: string, d: string)
    requires Plain(n) && Plain(d)
    ensures Encode(IntendedMessage(n, d)) == RequestText(n, d)
  {
    LabelsArePlain();
    PlainAppend(RequestLabel, n);
    PlainAppend(DescriptionLabel, d);
    EncodeTemplate(RequestLabel + n, DescriptionLabel + d);
  }

  /** On ordinary text the encoded link is the very link the source builds. */
  lemma EncodedAgreesOnPlainText(songNameInput: string, descriptionInput: string)
    requires Plain(Text.Trim(songNameInput)) && Plain(Text.Trim(descriptionInput))
    ensures EncodedRequestUrl(songNameInput, descriptionInput) == RequestUrl(songNameInput, descriptionInput)
  {
    EncodeIntended(Text.Trim(songNameInput), Text.Trim(descriptionInput));
  }
}
