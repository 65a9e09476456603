/**
 * test_gmail_api: read the newest Garmin mail of the last ten minutes and report the first
 * six-digit code in its body.
 *
 * `extract_body` imports base64 inside the function, on its HTML and single-part paths only.
 * That makes `base64` a local name of the whole function, so the text/plain path can use it only
 * after an HTML part has been decoded; before that the name is unbound and the read raises.
 */
module GmailApiTest {
  import opened Wrappers
  import opened Text
  import opened Patterns
  import opened Mail

  const WindowSeconds: int := 600
  const ListLimit: nat := 10

  function CheckSearch(now: int): Search
  {
    Search(GarminSender, None, Some(now - WindowSeconds), ListLimit)
  }

  /** The part loop of extract_body from part i on, with the body so far and whether the local
      `import base64` has run. A text/plain part ends the loop. */
  function PartsFrom(parts: seq<Part>, i: nat, body: string, imported: bool): Extracted
    requires i <= |parts|
    decreases |parts| - i
  {
    if i == |parts| then Body(body)
    else
      var p := parts[i];
      if p.mimeType == PlainType then
        if p.data.None? then MissingData
        else if !imported then UnboundBase64
        else Body(p.data.value)
      else if p.mimeType == HtmlType && body == "" then
        if p.data.None? then MissingData
        else PartsFrom(parts, i + 1, StripTags(p.data.value), true)
      else PartsFrom(parts, i + 1, body, imported)
  }

  /** extract_body's result. A single-part payload gives its data if present, else "". */
  function BodyOf(payload: Payload): Extracted
  {
    match payload
    case Multipart(parts) => PartsFrom(parts, 0, "", false)
    case SinglePart(d) => Body(d.GetOr(""))
  }

  /** extract_body, with its loop and its `break`. */
  method ExtractBody(payload: Payload) returns (r: Extracted)
    ensures r == BodyOf(payload)
  {
    match payload {
      case SinglePart(d) =>
        r := Body(if d.Some? then d.value else "");
      case Multipart(parts) =>
        var body := "";
        var imported := false;
        var i := 0;
        while i < |parts|
          invariant 0 <= i <= |parts|
          invariant PartsFrom(parts, i, body, imported) == PartsFrom(parts, 0, "", false)
          decreases |parts| - i
        {
          var p := parts[i];
          if p.mimeType == PlainType {
            if p.data.None? {
              return MissingData;
            }
            if !imported {
              return UnboundBase64;
            }
            body := p.data.value;
            break;
          } else if p.mimeType == HtmlType && body == "" {
            if p.data.None? {
              return MissingData;
            }
            imported := true;
            body := StripTags(p.data.value);
          }
          i := i + 1;
        }
        r := Body(body);
    }
  }

  predicate Recognised(p: Part) {
    p.mimeType == PlainType || p.mimeType == HtmlType
  }

  lemma {:induction false} PlainFirstFrom(parts: seq<Part>, i: nat, k: nat)
    requires i <= k < |parts| && parts[k].mimeType == PlainType
    requires forall j | i <= j < k :: !Recognised(parts[j])
    ensures !PartsFrom(parts, i, "", false).Body?
    decreases k - i
  {
    if i < k {
      PlainFirstFrom(parts, i + 1, k);
    }
  }

  /** As written, a text/plain part met before any HTML part raises: the body is never read. */
  lemma PlainBeforeHtmlRaises(parts: seq<Part>, k: nat)
    requires k < |parts| && parts[k].mimeType == PlainType
    requires forall j | 0 <= j < k :: !Recognised(parts[j])
    ensures !BodyOf(Multipart(parts)).Body?
  {
    PlainFirstFrom(parts, 0, k);
  }

  lemma {:induction false} FirstPlainAfterImportFrom(parts: seq<Part>, i: nat, body: string, k: nat)
    requires i <= k < |parts| && parts[k].mimeType == PlainType && parts[k].data.Some?
    requires forall j | i <= j < k :: parts[j].mimeType != PlainType
    requires forall j | i <= j < k :: parts[j].data.Some?
    ensures PartsFrom(parts, i, body, true) == Body(parts[k].data.value)
    decreases k - i
  {
    if i < k {
      var p := parts[i];
      if p.mimeType == HtmlType && body == "" {
        FirstPlainAfterImportFrom(parts, i + 1, StripTags(p.data.value), k);
      } else {
        FirstPlainAfterImportFrom(parts, i + 1, body, k);
      }
    }
  }

  lemma {:induction false} SkipUnrecognised(parts: seq<Part>, i: nat, h: nat)
    requires i <= h <= |parts|
    requires forall j | i <= j < h :: !Recognised(parts[j])
    ensures PartsFrom(parts, i, "", false) == PartsFrom(parts, h, "", false)
    decreases h - i
  {
    if i < h {
      SkipUnrecognised(parts, i + 1, h);
    }
  }

  /** Once an HTML part has been decoded (the first HTML part always is, the body being empty),
      the first text/plain part after it is taken and the scan stops. */
  lemma FirstPlainWinsAfterHtml(parts: seq<Part>, h: nat, k: nat)
    requires h < k < |parts| && parts[h].mimeType == HtmlType && parts[k].mimeType == PlainType
    requires forall j | 0 <= j < h :: !Recognised(parts[j])
    requires forall j | h < j < k :: parts[j].mimeType != PlainType
    requires forall j | 0 <= j <= k :: parts[j].data.Some?
    ensures BodyOf(Multipart(parts)) == Body(parts[k].data.value)
  {
    SkipUnrecognised(parts, 0, h);
    FirstPlainAfterImportFrom(parts, h + 1, StripTags(parts[h].data.value), k);
  }

  /** check_garmin_mfa_emails. `request` is the search issued, `raised` says that an exception
      escaped (building the service runs outside the handler). */
  method CheckGarminMfaEmails(mailbox: Mailbox, now: int) returns (code: Option<string>, request: Option<Search>, raised: bool)
    ensures raised <==> mailbox.AuthFailure?
    ensures request.Some? <==> mailbox.ApiFailure? || mailbox.Matches?
    ensures request.Some? ==> request.value == CheckSearch(now)
    ensures code.Some? ==> mailbox.Matches? && Listed(mailbox.found, ListLimit) != []
    ensures mailbox.Matches? && Listed(mailbox.found, ListLimit) != [] ==>
      var body := BodyOf(mailbox.found[0].payload);
      code == (if body.Body? then FirstSixDigitCode(body.text) else None)
  {
    code, request, raised := None, None, false;
    match mailbox {
      case NoClientSecret =>
      case AuthFailure =>
        raised := true;
      case ApiFailure =>
        request := Some(CheckSearch(now));
      case Matches(found) =>
        request := Some(CheckSearch(now));
        var messages := Listed(found, request.value.maxResults);
        if messages == [] {
          return;
        }
        var body := ExtractBody(messages[0].payload);
        if body.Body? && body.text != "" {
          code := FirstSixDigitCode(body.text);
        }
    }
  }
}
