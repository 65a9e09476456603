/**
 * get_mfa_from_gmail as monkey_patch_auth.py and auto_garth_auth.py both write it: take the newest
 * listed mail, read its first text/plain part (or its single body), and return the first
 * six-digit code. Every failure on the way gives None. The two scripts differ only in their search.
 */
module GmailCode {
  import opened Wrappers
  import opened Text
  import opened Patterns
  import opened Mail

  /** The part loop from index i on: the first text/plain part's data, "" when there is none;
      a text/plain part without 'data' raises. */
  function FirstPlainFrom(parts: seq<Part>, i: nat): Extracted
    requires i <= |parts|
    decreases |parts| - i
  {
    if i == |parts| then Body("")
    else if parts[i].mimeType == PlainType then
      (if parts[i].data.Some? then Body(parts[i].data.value) else MissingData)
    else FirstPlainFrom(parts, i + 1)
  }

  /** The body this extractor reads from a payload. */
  function PlainBodyOf(payload: Payload): Extracted {
    match payload
    case SinglePart(d) => if d.Some? then Body(d.value) else MissingData
    case Multipart(parts) => FirstPlainFrom(parts, 0)
  }

  lemma {:induction false} FirstPlainFromFinds(parts: seq<Part>, i: nat, k: nat)
    requires i <= k < |parts| && parts[k].mimeType == PlainType
    requires forall j | i <= j < k :: parts[j].mimeType != PlainType
    ensures FirstPlainFrom(parts, i) == (if parts[k].data.Some? then Body(parts[k].data.value) else MissingData)
    decreases k - i
  {
    if i < k {
      FirstPlainFromFinds(parts, i + 1, k);
    }
  }

  lemma {:induction false} FirstPlainFromNone(parts: seq<Part>, i: nat)
    requires i <= |parts|
    requires forall j | i <= j < |parts| :: parts[j].mimeType != PlainType
    ensures FirstPlainFrom(parts, i) == Body("")
    decreases |parts| - i
  {
    if i < |parts| {
      FirstPlainFromNone(parts, i + 1);
    }
  }

  /** This reader imports base64 at the top of its try block, before the part loop, so reading a
      text/plain part never fails with an unbound name, unlike test_gmail_api.py's extract_body
      (GmailApiTest.PlainBeforeHtmlRaises). */
  lemma {:induction false} FirstPlainFromReads(parts: seq<Part>, i: nat)
    requires i <= |parts|
    ensures FirstPlainFrom(parts, i) != UnboundBase64
    decreases |parts| - i
  {
    if i < |parts| && parts[i].mimeType != PlainType {
      FirstPlainFromReads(parts, i + 1);
    }
  }

  /** The first text/plain part wins, whatever follows it; with no text/plain part the body is
      empty; a single body is read as it is. HTML parts are never used. */
  lemma FirstPlainPart(payload: Payload)
    ensures PlainBodyOf(payload) != UnboundBase64
    ensures payload.SinglePart? ==>
      PlainBodyOf(payload) == (if payload.data.Some? then Body(payload.data.value) else MissingData)
    ensures payload.Multipart? && (forall j | 0 <= j < |payload.parts| :: payload.parts[j].mimeType != PlainType) ==>
      PlainBodyOf(payload) == Body("")
    ensures payload.Multipart? ==> forall k | 0 <= k < |payload.parts| ::
      payload.parts[k].mimeType == PlainType && (forall j | 0 <= j < k :: payload.parts[j].mimeType != PlainType) ==>
        PlainBodyOf(payload) == (if payload.parts[k].data.Some? then Body(payload.parts[k].data.value) else MissingData)
  {
    if payload.Multipart? {
      var parts := payload.parts;
      FirstPlainFromReads(parts, 0);
      if forall j | 0 <= j < |parts| :: parts[j].mimeType != PlainType {
        FirstPlainFromNone(parts, 0);
      } else {
        forall k | 0 <= k < |parts| && parts[k].mimeType == PlainType
          && (forall j | 0 <= j < k :: parts[j].mimeType != PlainType)
          ensures PlainBodyOf(payload) == (if parts[k].data.Some? then Body(parts[k].data.value) else MissingData)
        {
          FirstPlainFromFinds(parts, 0, k);
        }
      }
    }
  }

  /** The loop over parts with `break` at the first text/plain part. */
  method FirstPlainBody(payload: Payload) returns (r: Extracted)
    ensures r == PlainBodyOf(payload)
  {
    match payload {
      case SinglePart(d) =>
        r := if d.Some? then Body(d.value) else MissingData;
      case Multipart(parts) =>
        var body := "";
        var i := 0;
        while i < |parts|
          invariant 0 <= i <= |parts|
          invariant FirstPlainFrom(parts, i) == FirstPlainFrom(parts, 0)
        {
          if parts[i].mimeType == PlainType {
            if parts[i].data.None? {
              return MissingData;
            }
            body := parts[i].data.value;
            break;
          }
          i := i + 1;
        }
        r := Body(body);
    }
  }

  /** The code get_mfa_from_gmail returns for one mailbox outcome and list size. */
  function NewestCode(mailbox: Mailbox, maxResults: nat): Option<string> {
    if !mailbox.Matches? || Listed(mailbox.found, maxResults) == [] then None
    else
      var body := PlainBodyOf(Listed(mailbox.found, maxResults)[0].payload);
      if body.Body? then FirstSixDigitCode(body.text) else None
  }

  /** A code is six digits and comes from the newest listed mail: its single body or its first
      text/plain part, searched for the first `\b\d{6}\b` run. No mailbox, no mail, no data or
      no match gives None. */
  lemma NewestCodeSource(mailbox: Mailbox, maxResults: nat)
    ensures var code := NewestCode(mailbox, maxResults);
      (code.Some? ==> |code.value| == 6 && AllDigits(code.value)
                      && mailbox.Matches? && maxResults > 0 && mailbox.found != [])
      && (mailbox.Matches? && maxResults > 0 && mailbox.found != [] ==>
            var body := PlainBodyOf(mailbox.found[0].payload);
            code == (if body.Body? then FirstSixDigitCode(body.text) else None))
  {
    if mailbox.Matches? && maxResults > 0 && mailbox.found != [] {
      assert Listed(mailbox.found, maxResults)[0] == mailbox.found[0];
    }
  }

  /** One run of get_mfa_from_gmail with the given search. `request` is the list call issued,
      if the credentials were obtained. */
  method FetchCode(mailbox: Mailbox, search: Search) returns (code: Option<string>, request: Option<Search>)
    ensures code == NewestCode(mailbox, search.maxResults)
    ensures request.Some? <==> mailbox.ApiFailure? || mailbox.Matches?
    ensures request.Some? ==> request.value == search
  {
    code, request := None, None;
    if mailbox.NoClientSecret? || mailbox.AuthFailure? {
      return;
    }
    request := Some(search);
    if mailbox.ApiFailure? {
      return;
    }
    var messages := Listed(mailbox.found, search.maxResults);
    if messages == [] {
      return;
    }
    var body := FirstPlainBody(messages[0].payload);
    if body.Body? {
      code := FirstSixDigitCode(body.text);
    }
  }
}
