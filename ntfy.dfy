/**
 * NtfyNotifier: posts a notice to the configured ntfy server, and to a public fallback topic when
 * that fails. The HTTP call is an oracle: each post is given the reply it gets.
 */
module Ntfy {
  import opened Wrappers
  import opened Text
  import opened Notices

  const DefaultServer: string := "https://notify.jacqueswainwright.com"
  const DefaultTopic: string := "garmin-auth"
  const FallbackServer: string := "https://ntfy.sh"
  const FallbackTopicPrefix: string := "garmin-mcp-"

  /** The reply to one `requests.post`: a status code, or an exception (timeout, refused, ...). */
  datatype Reply = Status(code: int) | TransportError

  predicate Delivered(reply: Reply) {
    reply == Status(200)
  }

  /** One POST: target URL, headers and the message body. */
  datatype Post = Post(url: string, headers: map<string, string>, body: string)

  /** `os.environ.get(name, default)`: the default only when the variable is absent. */
  function EnvOr(env: map<string, string>, name: string, default: string): string
  {
    if name in env then env[name] else default
  }

  /** The complete header set of a post: the three fixed headers, `Tags` exactly when there are
      tags, and `Authorization` exactly when a bearer token is used. */
  predicate HeadersFor(h: map<string, string>, title: string, priority: string, tags: seq<string>, bearer: Option<string>)
  {
    && h.Keys == {"Content-Type", "Title", "Priority"}
                 + (if tags != [] then {"Tags"} else {})
                 + (if bearer.Some? then {"Authorization"} else {})
    && h["Content-Type"] == "text/plain; charset=utf-8"
    && h["Title"] == title
    && h["Priority"] == priority
    && (tags != [] ==> h["Tags"] == Join(tags, ","))
    && (bearer.Some? ==> h["Authorization"] == "Bearer " + bearer.value)
  }

  class NtfyNotifier {
    const server: string
    const topic: string
    const token: Option<string>
    const url: string
    const fallbackUrl: string
    /** Every POST attempted so far, in order. */
    var posts: seq<Post>

    /** `__init__`: the primary URL is server + "/" + topic, the fallback topic is
        "garmin-mcp-" + $USER on ntfy.sh. */
    constructor (env: map<string, string>)
      ensures server == EnvOr(env, "NTFY_SERVER", DefaultServer)
      ensures topic == EnvOr(env, "NTFY_TOPIC", DefaultTopic)
      ensures token == (if "NTFY_TOKEN" in env then Some(env["NTFY_TOKEN"]) else None)
      ensures url == server + "/" + topic
      ensures fallbackUrl == FallbackServer + "/" + FallbackTopicPrefix + EnvOr(env, "USER", "user")
      ensures posts == []
    {
      server := EnvOr(env, "NTFY_SERVER", DefaultServer);
      topic := EnvOr(env, "NTFY_TOPIC", DefaultTopic);
      token := if "NTFY_TOKEN" in env then Some(env["NTFY_TOKEN"]) else None;
      url := server + "/" + topic;
      fallbackUrl := FallbackServer + "/" + FallbackTopicPrefix + EnvOr(env, "USER", "user");
      posts := [];
    }

    /** The token a post authorises with: only when asked to, and only when a non-empty token is
        configured. */
    function Bearer(useAuth: bool): (b: Option<string>)
      ensures b.Some? <==> useAuth && token.Some? && token.value != ""
      ensures b.Some? ==> b == token
    {
      if useAuth && token.Some? && token.value != "" then token else None
    }

    /** The `headers` dict of `_send_to_server`, filled in place. */
    method Headers(title: string, priority: string, tags: seq<string>, useAuth: bool) returns (h: map<string, string>)
      ensures HeadersFor(h, title, priority, tags, Bearer(useAuth))
      ensures "Authorization" in h <==> useAuth && token.Some? && token.value != ""
      ensures "Tags" in h <==> tags != []
    {
      h := map["Content-Type" := "text/plain; charset=utf-8", "Title" := title, "Priority" := priority];
      if tags != [] {
        h := h["Tags" := Join(tags, ",")];
      }
      if useAuth && token.Some? && token.value != "" {
        h := h["Authorization" := "Bearer " + token.value];
      }
    }

    /** `_send_to_server`: one POST; true exactly on status 200, false on any other status or
        an exception. */
    method SendToServer(target: string, n: Notice, useAuth: bool, reply: Reply) returns (ok: bool)
      modifies this`posts
      ensures ok <==> Delivered(reply)
      ensures |posts| == |old(posts)| + 1 && posts[..|old(posts)|] == old(posts)
      ensures posts[|old(posts)|].url == target && posts[|old(posts)|].body == n.message
      ensures HeadersFor(posts[|old(posts)|].headers, n.title, n.priority, n.tags, Bearer(useAuth))
    {
      var headers := Headers(n.title, n.priority, n.tags, useAuth);
      posts := posts + [Post(target, headers, n.message)];
      ok := Delivered(reply);
    }

    /** What one `send_notification` of `n` appends to `before`: a post to the primary URL with
        the bearer token, then, only when the primary did not answer 200, a post of the same
        message to the fallback URL without any Authorization header. */
    predicate SentWithFallback(before: seq<Post>, after: seq<Post>, n: Notice, primary: Reply) {
      && |after| == |before| + (if Delivered(primary) then 1 else 2)
      && after[..|before|] == before
      && after[|before|].url == url && after[|before|].body == n.message
      && HeadersFor(after[|before|].headers, n.title, n.priority, n.tags, Bearer(true))
      && (!Delivered(primary) ==>
            after[|before| + 1].url == fallbackUrl && after[|before| + 1].body == n.message
            && HeadersFor(after[|before| + 1].headers, n.title, n.priority, n.tags, None)
            && "Authorization" !in after[|before| + 1].headers)
    }

    /** `send_notification`: the primary server with auth; the fallback, without auth, only when
        the primary fails. True iff one of the two sends succeeded. */
    method Send(n: Notice, primary: Reply, fallback: Reply) returns (ok: bool)
      modifies this`posts
      ensures ok <==> Delivered(primary) || Delivered(fallback)
      ensures SentWithFallback(old(posts), posts, n, primary)
    {
      ok := SendToServer(url, n, true, primary);
      if !ok {
        ghost var mid := posts;
        ok := SendToServer(fallbackUrl, n, false, fallback);
        assert posts[..|mid|] == mid;
      }
    }

    /** One `notify_*` call: render the event and send it. notify_tokens_expiring sends nothing
        for tokens up to 60 days old. notify_mfa_required builds its message line by line. */
    method Notify(e: Event, primary: Reply, fallback: Reply)
      modifies this`posts
      ensures Render(e).None? ==> posts == old(posts)
      ensures Render(e).Some? ==> SentWithFallback(old(posts), posts, Render(e).value, primary)
    {
      var rendered := Render(e);
      if rendered.None? {
        return;
      }
      var n := rendered.value;
      if e.MfaRequired? {
        var message := MfaRequiredMessage(e.methods);
        n := Notice(n.title, message, n.priority, n.tags);
      }
      assert n == rendered.value;
      var _ := Send(n, primary, fallback);
    }
  }
}
