/**
 * What the Gmail API hands the code readers, with transport, OAuth and base64 left outside:
 * message payloads hold already-decoded text, and one Mailbox value stands for the outcome of
 * building the service and listing the messages of one search.
 */
module Mail {
  import opened Wrappers
  import opened Text

  const PlainType: string := "text/plain"
  const HtmlType: string := "text/html"
  const GarminSender: string := "garmin.com"

  /** One MIME part: its type and its decoded `body['data']`; None when the part has no 'data'. */
  datatype Part = Part(mimeType: string, data: Option<string>)

  /** A payload either carries 'parts' or a single body. */
  datatype Payload = Multipart(parts: seq<Part>) | SinglePart(data: Option<string>)

  datatype Message = Message(id: string, payload: Payload)

  /** The outcome of reaching the mailbox for one search:
      no client-secret file configured; building or refreshing the credentials failed;
      the list or get call failed; or the matching messages, newest first, before the
      `maxResults` cut. */
  datatype Mailbox = NoClientSecret | AuthFailure | ApiFailure | Matches(found: seq<Message>)

  /** A `messages().list` request: the `q` string's parts and `maxResults`. */
  datatype Search = Search(sender: string, subject: Option<string>, after: Option<int>, maxResults: nat)

  /** The `q` string of a search, as the scripts format it. */
  function QueryText(s: Search): string
  {
    "from:" + s.sender
    + (match s.subject case Some(t) => " subject:\"" + t + "\"" case None => "")
    + (match s.after case Some(t) => " after:" + IntToString(t) case None => "")
  }

  /** The messages a list call returns: at most `maxResults` of the matches, newest first. */
  function Listed(found: seq<Message>, maxResults: nat): (r: seq<Message>)
    ensures |r| <= maxResults && |r| <= |found|
    ensures r == found[..|r|]
    ensures |r| == maxResults || r == found
  {
    if |found| <= maxResults then found else found[..maxResults]
  }

  /** The body text read from a payload, or the exception reading it raised. */
  datatype Extracted = Body(text: string) | MissingData | UnboundBase64
}
