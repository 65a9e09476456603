/**
 * show_latest_mfa: list up to ten Garmin security-passcode mails, and for each of the first five
 * read its body (the last text/plain part, else HTML with tags stripped) and show the code found
 * in it; the code of the newest mail is the one to use.
 */
module ShowMfaCode {
  import opened Wrappers
  import opened Text
  import opened Patterns
  import opened Mail

  const ListLimit: nat := 10
  const ExamineLimit: nat := 5

  /** The search the display issues: every Garmin mail with this subject, no time window. */
  const DisplaySearch: Search := Search(GarminSender, Some("security passcode"), None, ListLimit)

  // ---------------------------------------------------------------------------
  // Body selection

  /** One turn of the part loop: a text/plain part replaces the body; a text/html part is used,
      tag-stripped, only while the body is still empty; any other part changes nothing.
      Reading a part without 'data' raises. */
  function PartStep(body: string, p: Part): Extracted
  {
    if p.mimeType == PlainType then
      if p.data.Some? then Body(p.data.value) else MissingData
    else if p.mimeType == HtmlType && body == "" then
      if p.data.Some? then Body(StripTags(p.data.value)) else MissingData
    else Body(body)
  }

  function PartsFrom(parts: seq<Part>, i: nat, body: string): Extracted
    requires i <= |parts|
    decreases |parts| - i
  {
    if i == |parts| then Body(body)
    else match PartStep(body, parts[i])
      case Body(b) => PartsFrom(parts, i + 1, b)
      case other => other
  }

  /** The body the display reads from a payload. A single-part body always goes through tag
      stripping. */
  function BodyOf(payload: Payload): Extracted
  {
    match payload
    case Multipart(parts) => PartsFrom(parts, 0, "")
    case SinglePart(d) => if d.Some? then Body(StripTags(d.value)) else MissingData
  }

  /** The part loop, reassigning `body` part by part. */
  method ExtractBody(payload: Payload) returns (r: Extracted)
    ensures r == BodyOf(payload)
  {
    match payload {
      case SinglePart(d) =>
        if d.None? {
          return MissingData;
        }
        r := Body(StripTags(d.value));
      case Multipart(parts) =>
        var body := "";
        var i := 0;
        while i < |parts|
          invariant 0 <= i <= |parts|
          invariant PartsFrom(parts, i, body) == PartsFrom(parts, 0, "")
          decreases |parts| - i
        {
          var p := parts[i];
          if p.mimeType == PlainType {
            if p.data.None? {
              return MissingData;
            }
            body := p.data.value;
          } else if p.mimeType == HtmlType && body == "" {
            if p.data.None? {
              return MissingData;
            }
            body := StripTags(p.data.value);
          }
          i := i + 1;
        }
        r := Body(body);
    }
  }

  predicate NoPlainFrom(parts: seq<Part>, i: nat) {
    forall j | i <= j < |parts| :: parts[j].mimeType != PlainType
  }

  lemma {:induction false} NonEmptyBodyKept(parts: seq<Part>, i: nat, body: string)
    requires i <= |parts| && body != "" && NoPlainFrom(parts, i)
    ensures PartsFrom(parts, i, body) == Body(body)
    decreases |parts| - i
  {
    if i < |parts| {
      NonEmptyBodyKept(parts, i + 1, body);
    }
  }

  lemma {:induction false} LastPlainWinsFrom(parts: seq<Part>, i: nat, body: string, k: nat)
    requires i <= k < |parts|
    requires parts[k].mimeType == PlainType && parts[k].data.Some? && parts[k].data.value != ""
    requires NoPlainFrom(parts, k + 1)
    ensures PartsFrom(parts, i, body) == Body(parts[k].data.value) || PartsFrom(parts, i, body) == MissingData
    ensures (forall j | i <= j < k :: parts[j].data.Some?) ==> PartsFrom(parts, i, body) == Body(parts[k].data.value)
    decreases k - i
  {
    if i < k {
      match PartStep(body, parts[i])
      case Body(b) => LastPlainWinsFrom(parts, i + 1, b, k);
      case _ =>
    } else {
      NonEmptyBodyKept(parts, k + 1, parts[k].data.value);
    }
  }

  /** In a multipart payload the last text/plain part wins: when it holds text, the body is that
      text, unless an earlier part without data aborted the read; when every earlier part has
      data, the body is that text. */
  lemma LastPlainWins(parts: seq<Part>, k: nat)
    requires k < |parts|
    requires parts[k].mimeType == PlainType && parts[k].data.Some? && parts[k].data.value != ""
    requires NoPlainFrom(parts, k + 1)
    ensures BodyOf(Multipart(parts)) in {Body(parts[k].data.value), MissingData}
    ensures (forall j | 0 <= j < k :: parts[j].data.Some?) ==> BodyOf(Multipart(parts)) == Body(parts[k].data.value)
  {
    LastPlainWinsFrom(parts, 0, "", k);
  }

  /** Every HTML part before h had data and stripped to the empty text. */
  predicate EmptyHtmlBefore(parts: seq<Part>, h: nat)
    requires h <= |parts|
  {
    forall j | 0 <= j < h && parts[j].mimeType == HtmlType ::
      parts[j].data.Some? && StripTags(parts[j].data.value) == ""
  }

  /** h is the first HTML part whose tag-stripped text is not empty. */
  predicate FirstTextHtml(parts: seq<Part>, h: nat) {
    h < |parts| && parts[h].mimeType == HtmlType && parts[h].data.Some?
    && StripTags(parts[h].data.value) != "" && EmptyHtmlBefore(parts, h)
  }

  lemma {:induction false} HtmlOnlyWhileEmptyFrom(parts: seq<Part>, i: nat, body: string)
    requires i <= |parts| && NoPlainFrom(parts, 0)
    requires body == "" ==> EmptyHtmlBefore(parts, i)
    requires body != "" ==> exists h: nat | h < i :: FirstTextHtml(parts, h) && body == StripTags(parts[h].data.value)
    ensures var r := PartsFrom(parts, i, body);
      (r.Body? && r.text != "" ==> exists h: nat :: FirstTextHtml(parts, h) && r.text == StripTags(parts[h].data.value))
      && (r.Body? && r.text == "" ==> EmptyHtmlBefore(parts, |parts|))
    decreases |parts| - i
  {
    if i < |parts| {
      match PartStep(body, parts[i])
      case Body(b) =>
        if body == "" && b != "" {
          assert FirstTextHtml(parts, i);
        }
        HtmlOnlyWhileEmptyFrom(parts, i + 1, b);
      case _ =>
    }
  }

  /** Without a text/plain part, a non-empty body is the tag-stripped text of the first HTML part
      whose stripped text is not empty, every earlier HTML part stripping to ""; an empty body
      means every HTML part stripped to "". */
  lemma HtmlFallback(parts: seq<Part>)
    requires NoPlainFrom(parts, 0)
    ensures var r := BodyOf(Multipart(parts));
      (r.Body? && r.text != "" ==> exists h: nat :: FirstTextHtml(parts, h) && r.text == StripTags(parts[h].data.value))
      && (r.Body? && r.text == "" ==> EmptyHtmlBefore(parts, |parts|))
  {
    HtmlOnlyWhileEmptyFrom(parts, 0, "");
  }

  // ---------------------------------------------------------------------------
  // Code selection

  /** The account pattern takes precedence; only when it does not match is the fallback used, and
      the fallback is the leftmost six-digit run other than 000000. */
  lemma DisplayedCodePrecedence(body: string)
    ensures SearchAccountFrom(body, 0).Some? ==> DisplayedCode(body) == SearchAccountFrom(body, 0)
    ensures SearchAccountFrom(body, 0).None? ==>
      (DisplayedCode(body).Some? <==> exists i | 0 <= i <= |body| :: RealCodeAt(body, i))
    ensures SearchAccountFrom(body, 0).None? ==> DisplayedCode(body) == FallbackCode(body)
    ensures SearchAccountFrom(body, 0).None? && DisplayedCode(body).Some? ==>
      DisplayedCode(body).value != ZeroCode
  {
    FallbackCodeIsLeftmostReal(body);
  }

  // ---------------------------------------------------------------------------
  // The whole display

  function Min(a: nat, b: nat): nat { if a <= b then a else b }

  /** The display read this mail's body and showed `code` for it. */
  predicate ShownFor(m: Message, code: Option<string>) {
    BodyOf(m.payload).Body? && code == DisplayedCode(BodyOf(m.payload).text)
  }

  /** show_latest_mfa. `shown[k]` is the code shown for the k-th listed mail (None: no code);
      `latest` is the "LATEST CODE TO USE", taken from the newest mail only. A body that cannot be
      read raises, and the handler around the whole loop ends the display there. */
  method ShowLatestMfa(mailbox: Mailbox) returns (request: Option<Search>, shown: seq<Option<string>>, latest: Option<string>)
    ensures mailbox.NoClientSecret? || mailbox.AuthFailure? ==> request == None
    ensures mailbox.ApiFailure? || mailbox.Matches? ==> request == Some(DisplaySearch)
    ensures !mailbox.Matches? ==> shown == [] && latest == None
    ensures mailbox.Matches? ==>
      var listed := Listed(mailbox.found, ListLimit);
      |shown| <= Min(ExamineLimit, |listed|)
      && (forall k | 0 <= k < |shown| :: ShownFor(listed[k], shown[k]))
      && (|shown| < Min(ExamineLimit, |listed|) ==> !BodyOf(listed[|shown|].payload).Body?)
    ensures latest == (if shown != [] then shown[0] else None)
  {
    shown, latest := [], None;
    request := None;
    if mailbox.NoClientSecret? || mailbox.AuthFailure? {
      return;
    }
    request := Some(DisplaySearch);
    if mailbox.ApiFailure? {
      return;
    }
    var listed := Listed(mailbox.found, DisplaySearch.maxResults);
    var n := Min(ExamineLimit, |listed|);
    var i := 0;
    while i < n
      invariant 0 <= i <= n && |shown| == i
      invariant forall k | 0 <= k < i :: ShownFor(listed[k], shown[k])
      invariant latest == (if shown != [] then shown[0] else None)
    {
      var body := ExtractBody(listed[i].payload);
      if !body.Body? {
        return;
      }
      var code := DisplayedCode(body.text);
      shown := shown + [code];
      if i == 0 {
        latest := code;
      }
      i := i + 1;
    }
  }
}
