/** The HTTP transport, reduced to what the protocol code observes of it: a
    POST or GET either reaches the server and yields a status line and a body
    that may or may not parse as JSON, or fails before any reply arrives.
    The network itself is a parameter: a `Post` is a function from URL and
    JSON body to outcome. */
module Transport {
  import opened Wrappers
  import opened JsonValue
  import Strings

  /** A reply as `requests` exposes it: the status code, the reason phrase, the
      final URL, and `response.json()` (a failure carries the decoding error's text). */
  datatype HttpReply = HttpReply(status: int, reason: string, url: string, body: Result<Json, string>)

  /** `Unreachable` is a `requests.exceptions.RequestException` raised by the
      call itself (connection refused, timeout, ...), with its text. */
  datatype Outcome = Replied(reply: HttpReply) | Unreachable(error: string)

  type Post = (string, Json) -> Outcome
  type Get = string -> Outcome

  /** One request put on the wire: where it went and what it carried. */
  datatype Sent = Sent(url: string, body: Json)

  /** `response.raise_for_status()`: the text of the `HTTPError` it raises for
      a 4xx or 5xx status, or `None` when it returns normally. */
  function StatusError(r: HttpReply): (e: Option<string>)
    ensures e.Some? <==> 400 <= r.status < 600
    ensures e.Some? ==> Strings.StartsWith(e.value, Strings.IntToString(r.status) + " ")
  {
    var kind := if r.status < 500 then "Client" else "Server";
    if 400 <= r.status < 600 then
      var prefix := Strings.IntToString(r.status) + " ";
      assert (prefix + kind + " Error: " + r.reason + " for url: " + r.url)[..|prefix|] == prefix;
      Some(prefix + kind + " Error: " + r.reason + " for url: " + r.url)
    else None
  }
}
