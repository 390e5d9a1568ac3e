/** Classifying a channel's last error message, and combining it with the state
    of the provider account. */
module ErrorClassifier {
  import opened Text
  import opened Ordered

  datatype Category = Auth | Quota | RateLimit | Model | Unreachable | Protocol | Upstream | Unknown
  datatype Severity = Critical | Error | Warning
  datatype Issue = Issue(category: Category, severity: Severity, code: string, source: string)

  /** The cascade: the first class with a matching needle wins. */
  const CASCADE: seq<seq<string>> := [
    ["unauthorized", "forbidden", "invalid api key", "invalid token", "authentication", "http 401", "http 403"],
    ["insufficient quota", "quota exceeded", "quota exhausted", "insufficient balance", "credit balance",
     "额度不足", "余额不足"],
    ["too many requests", "rate limit", "http 429"],
    ["model not found", "unsupported model", "unknown model", "model mapping"],
    ["connection refused", "connection reset", "dns", "tls", "certificate", "timed out", "timeout", "unreachable"],
    ["malformed sse", "invalid envelope", "decode response", "decode error", "invalid json", "protocol"],
    ["bad gateway", "service unavailable", "gateway timeout", "internal server error",
     "http 500", "http 502", "http 503", "http 504"]]

  const VERDICTS: seq<Issue> := [
    Issue(Auth, Critical, "authentication_failed", "channel_error"),
    Issue(Quota, Critical, "quota_exhausted", "channel_error"),
    Issue(RateLimit, Warning, "rate_limited", "channel_error"),
    Issue(Model, Error, "model_unavailable", "channel_error"),
    Issue(Unreachable, Error, "endpoint_unreachable", "channel_error"),
    Issue(Protocol, Error, "protocol_incompatible", "channel_error"),
    Issue(Upstream, Error, "upstream_server_error", "channel_error"),
    Issue(Unknown, Error, "unknown_channel_error", "channel_error")]

  predicate ContainsAny(text: string, needles: seq<string>) {
    exists i :: 0 <= i < |needles| && Contains(text, needles[i])
  }

  /** The first class at or after `n` that matches, or `|CASCADE|`. */
  function FirstClass(text: string, n: nat): (r: nat)
    requires n <= |CASCADE|
    ensures n <= r <= |CASCADE|
    ensures r < |CASCADE| ==> ContainsAny(text, CASCADE[r])
    ensures forall i :: n <= i < r ==> !ContainsAny(text, CASCADE[i])
    decreases |CASCADE| - n
  {
    if n == |CASCADE| || ContainsAny(text, CASCADE[n]) then n else FirstClass(text, n + 1)
  }

  function ClassOf(message: string): (r: nat)
    ensures r < |VERDICTS|
  {
    FirstClass(Lower(message), 0)
  }

  function Classify(message: string): Issue { VERDICTS[ClassOf(message)] }

  // --------------------------------------------- which messages are in a class

  /** The folded text has what makes a message of category `c`, apart from the
      order of precedence. */
  predicate Says(text: string, c: Category) {
    match c
    case Auth =>
      || Contains(text, "unauthorized") || Contains(text, "forbidden") || Contains(text, "invalid api key")
      || Contains(text, "invalid token") || Contains(text, "authentication")
      || Contains(text, "http 401") || Contains(text, "http 403")
    case Quota =>
      || Contains(text, "insufficient quota") || Contains(text, "quota exceeded") || Contains(text, "quota exhausted")
      || Contains(text, "insufficient balance") || Contains(text, "credit balance")
      || Contains(text, "额度不足") || Contains(text, "余额不足")
    case RateLimit =>
      Contains(text, "too many requests") || Contains(text, "rate limit") || Contains(text, "http 429")
    case Model =>
      || Contains(text, "model not found") || Contains(text, "unsupported model")
      || Contains(text, "unknown model") || Contains(text, "model mapping")
    case Unreachable =>
      || Contains(text, "connection refused") || Contains(text, "connection reset") || Contains(text, "dns")
      || Contains(text, "tls") || Contains(text, "certificate") || Contains(text, "timed out")
      || Contains(text, "timeout") || Contains(text, "unreachable")
    case Protocol =>
      || Contains(text, "malformed sse") || Contains(text, "invalid envelope") || Contains(text, "decode response")
      || Contains(text, "decode error") || Contains(text, "invalid json") || Contains(text, "protocol")
    case Upstream =>
      || Contains(text, "bad gateway") || Contains(text, "service unavailable")
      || Contains(text, "internal server error") || Contains(text, "http 500") || Contains(text, "http 502")
      || Contains(text, "http 503") || Contains(text, "http 504")
    case Unknown => true
  }

  /** The order of precedence. */
  function Turn(c: Category): nat {
    match c
    case Auth => 0
    case Quota => 1
    case RateLimit => 2
    case Model => 3
    case Unreachable => 4
    case Protocol => 5
    case Upstream => 6
    case Unknown => 7
  }

  /** A short list of needles, one by one. */
  lemma ContainsOneOf(text: string, needles: seq<string>)
    requires 3 <= |needles| <= 8
    ensures ContainsAny(text, needles) <==>
      || Contains(text, needles[0]) || Contains(text, needles[1]) || Contains(text, needles[2])
      || (3 < |needles| && Contains(text, needles[3])) || (4 < |needles| && Contains(text, needles[4]))
      || (5 < |needles| && Contains(text, needles[5])) || (6 < |needles| && Contains(text, needles[6]))
      || (7 < |needles| && Contains(text, needles[7]))
  {
    if i :| 0 <= i < |needles| && Contains(text, needles[i]) {
      assert i == 0 || i == 1 || i == 2 || i == 3 || i == 4 || i == 5 || i == 6 || i == 7;
    }
  }

  lemma RowSays(text: string, c: Category)
    requires !c.Upstream? && !c.Unknown?
    ensures ContainsAny(text, CASCADE[Turn(c)]) <==> Says(text, c)
  {
    match c
    case Auth => ContainsOneOf(text, CASCADE[0]);
    case Quota => ContainsOneOf(text, CASCADE[1]);
    case RateLimit => ContainsOneOf(text, CASCADE[2]);
    case Model => ContainsOneOf(text, CASCADE[3]);
    case Unreachable => ContainsOneOf(text, CASCADE[4]);
    case Protocol => ContainsOneOf(text, CASCADE[5]);
  }

  lemma UpstreamSays(text: string)
    ensures ContainsAny(text, CASCADE[6]) <==> Says(text, Upstream) || Contains(text, "gateway timeout")
  {
    ContainsOneOf(text, CASCADE[6]);
  }

  lemma GatewayTimeoutIsTimeout(text: string)
    requires Contains(text, "gateway timeout")
    ensures Contains(text, "timeout")
  {
    var long, short := "gateway timeout", "timeout";
    var i :| 0 <= i <= |text| && long <= text[i..];
    assert long[8..] == short;
    assert text[i..][8..] == text[i + 8..];
    assert short <= text[i + 8..];
  }

  /** What the categories look for decides the class. */
  lemma ClassSays(message: string, c: Category)
    ensures Turn(c) < ClassOf(message) ==> !Says(Lower(message), c)
    ensures Turn(c) == ClassOf(message) ==> Says(Lower(message), c)
  {
    var text := Lower(message);
    if c.Upstream? {
      UpstreamSays(text);
      if Contains(text, "gateway timeout") {
        GatewayTimeoutIsTimeout(text);
        RowSays(text, Unreachable);
      }
    } else if !c.Unknown? {
      RowSays(text, c);
    }
  }

  lemma CategoryTurn(message: string)
    ensures Turn(Classify(message).category) == ClassOf(message)
  {
  }

  /** Exactly which messages are of each category: those that say what it looks for
      and nothing that an earlier category looks for. */
  lemma CategoryIff(message: string, c: Category)
    ensures Classify(message).category == c <==>
      Says(Lower(message), c) && forall d :: Turn(d) < Turn(c) ==> !Says(Lower(message), d)
  {
    var r := Classify(message).category;
    CategoryTurn(message);
    forall d: Category ensures Turn(d) < Turn(r) ==> !Says(Lower(message), d) { ClassSays(message, d); }
    ClassSays(message, r);
    assert Turn(c) == Turn(r) ==> c == r;
  }

  /** What is reported for each category. */
  lemma IssueIs(message: string)
    ensures
      var r := Classify(message);
      && r.source == "channel_error"
      && (r.severity == Critical <==> r.category == Auth || r.category == Quota)
      && (r.severity == Warning <==> r.category == RateLimit)
      && match r.category
         case Auth => r.code == "authentication_failed"
         case Quota => r.code == "quota_exhausted"
         case RateLimit => r.code == "rate_limited"
         case Model => r.code == "model_unavailable"
         case Unreachable => r.code == "endpoint_unreachable"
         case Protocol => r.code == "protocol_incompatible"
         case Upstream => r.code == "upstream_server_error"
         case Unknown => r.code == "unknown_channel_error"
  {
  }

  /** Only the ASCII case-folded text matters. */
  lemma CaseInsensitive(a: string, b: string)
    requires Lower(a) == Lower(b)
    ensures Classify(a) == Classify(b)
    ensures Classify(Lower(a)) == Classify(a)
  {
    LowerIdempotent(a);
  }

  /** Surrounding a message with any text never moves it to a later class. */
  lemma Monotone(before: string, message: string, after: string)
    ensures ClassOf(before + message + after) <= ClassOf(message)
  {
    var c := ClassOf(message);
    var wide := Lower(before + message + after);
    if c < |CASCADE| {
      LowerConcat(before + message, after);
      LowerConcat(before, message);
      var i :| 0 <= i < |CASCADE[c]| && Contains(Lower(message), CASCADE[c][i]);
      ContainsWiden(Lower(before), Lower(message), Lower(after), CASCADE[c][i]);
      assert ContainsAny(wide, CASCADE[c]);
    }
  }

  /** A message that mentions a needle of class `c` is classed `c` or earlier. */
  lemma AtMost(message: string, c: nat, i: nat)
    requires c < |CASCADE| && i < |CASCADE[c]| && Contains(Lower(message), CASCADE[c][i])
    ensures ClassOf(message) <= c
  {
    assert ContainsAny(Lower(message), CASCADE[c]);
  }

  /** "gateway timeout" never counts as an upstream failure: the earlier test for
      "timeout" always matches, so that needle is dead. */
  lemma GatewayTimeoutIsDead(message: string)
    requires Contains(Lower(message), "gateway timeout")
    ensures ClassOf(message) <= 4 && !Classify(message).category.Upstream?
  {
    GatewayTimeoutIsTimeout(Lower(message));
    assert CASCADE[4][6] == "timeout";
    AtMost(message, 4, 6);
  }

  // --------------------------------------------------------- combining lanes

  datatype Account = Available | Low | Exhausted

  function Priority(c: Category): nat {
    match c
    case Auth => 8
    case Quota => 7
    case Protocol => 6
    case Unreachable => 5
    case Model => 4
    case RateLimit => 3
    case Upstream => 2
    case Unknown => 1
  }

  function AccountIssue(account: Account): Option<Issue> {
    match account
    case Available => None
    case Low => Some(Issue(Quota, Warning, "quota_warning", "provider_quota"))
    case Exhausted => Some(Issue(Quota, Critical, "quota_exhausted", "provider_quota"))
  }

  function Operational(message: Option<string>, account: Account): Option<Issue> {
    var channel := if message.Some? then Some(Classify(message.value)) else None;
    var quota := AccountIssue(account);
    if channel.Some? && quota.Some? then
      if Priority(channel.value.category) >= Priority(quota.value.category) then channel else quota
    else if channel.Some? then channel else quota
  }

  /** What is shown: nothing only without message and account issue; the message's
      issue if the account is fine or the message is about authentication or
      quota; else the account's. */
  lemma OperationalIs(message: Option<string>, account: Account)
    ensures
      var r := Operational(message, account);
      var own := message.Some? &&
        (account.Available? || Classify(message.value).category == Auth || Classify(message.value).category == Quota);
      && (r.None? <==> message.None? && account.Available?)
      && (own ==> r == Some(Classify(message.value)))
      && (!own && account.Low? ==> r == Some(Issue(Quota, Warning, "quota_warning", "provider_quota")))
      && (!own && account.Exhausted? ==> r == Some(Issue(Quota, Critical, "quota_exhausted", "provider_quota")))
  {
  }

  /** With an account issue pending, the error message is shown exactly when it is
      of the first two classes of the cascade. */
  lemma MessageShownIff(message: string, account: Account)
    requires AccountIssue(account).Some?
    ensures Operational(Some(message), account) == Some(Classify(message)) <==> ClassOf(message) <= 1
  {
  }

  /** So adding text to a message never hides an error that was shown. */
  lemma ShownStaysShown(before: string, message: string, after: string, account: Account)
    requires Operational(Some(message), account) == Some(Classify(message))
    ensures Operational(Some(before + message + after), account) == Some(Classify(before + message + after))
  {
    Monotone(before, message, after);
    if AccountIssue(account).Some? {
      MessageShownIff(message, account);
      MessageShownIff(before + message + after, account);
    }
  }
}
