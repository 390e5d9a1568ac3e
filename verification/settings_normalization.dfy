/** Validation and in-place normalisation of channel settings input. */
module SettingsNormalization {
  import opened Text
  import opened Ordered

  datatype AutoRule = AutoRule(pattern: string, template: string, modelType: Option<string>)

  /** `body` stands for the replacement body, whatever its JSON is. */
  datatype RewriteRule = RewriteRule(
    statusCodes: Option<seq<int>>, bodyPattern: Option<string>, httpStatus: Option<int>,
    message: Option<string>, errorType: Option<string>, code: Option<string>, body: Option<string>)

  datatype Settings = Settings(
    currency: Option<string>, multiplier: Option<real>,
    rules: Option<seq<AutoRule>>, rewrites: Option<seq<RewriteRule>>)

  datatype Problem = Billing | RuleProblem(index: nat) | RewriteProblem(index: nat)

  type Regex = string -> bool

  const MODEL_TYPES: set<string> := {"chat", "embedding", "rerank", "image_generation", "video_generation"}

  /** The first element that is not `ok`, or `|xs|`. */
  function FirstBad<T>(xs: seq<T>, ok: T -> bool): (n: nat)
    ensures n <= |xs| && (n < |xs| ==> !ok(xs[n]))
    ensures forall i :: 0 <= i < n ==> ok(xs[i])
  {
    if xs == [] || !ok(xs[0]) then 0 else 1 + FirstBad(xs[1..], ok)
  }

  // ---------------------------------------------------------------- billing

  predicate BillingOk(currency: Option<string>, multiplier: Option<real>) {
    (currency.None? && multiplier.None?) ||
    (currency.Some? && multiplier.Some? && CurrencyCode(Upper(Trim(currency.value))) && multiplier.value > 0.0)
  }

  predicate CurrencyCode(s: string) { |s| == 3 && forall i :: 0 <= i < 3 ==> 'A' <= s[i] <= 'Z' }

  function NormalCurrency(currency: Option<string>): Option<string> {
    if currency.None? then None else Some(Upper(Trim(currency.value)))
  }

  // ---------------------------------------------------------- mapping rules

  function NormalType(r: AutoRule): string { Lower(Trim(OrElse(r.modelType, "chat"))) }

  predicate RuleOk(regex: Regex, r: AutoRule) {
    && Trim(r.pattern) != "" && Trim(r.template) != ""
    && regex(Trim(r.pattern)) && NormalType(r) in MODEL_TYPES
  }

  /** What one pass leaves of a rule; a refused rule is trimmed but keeps its type. */
  function TouchRule(regex: Regex, r: AutoRule): AutoRule {
    AutoRule(Trim(r.pattern), Trim(r.template), if RuleOk(regex, r) then Some(NormalType(r)) else r.modelType)
  }

  /** The first refused rule, or `|rules|`. */
  function BadRule(regex: Regex, rules: seq<AutoRule>): (n: nat)
    ensures n <= |rules| && (n < |rules| ==> !RuleOk(regex, rules[n]))
    ensures forall i :: 0 <= i < n ==> RuleOk(regex, rules[i])
  {
    FirstBad(rules, (r: AutoRule) => RuleOk(regex, r))
  }

  /** The rules after a pass: everything up to the first refused one is touched. */
  function TouchedRules(regex: Regex, rules: seq<AutoRule>): (r: seq<AutoRule>)
    ensures |r| == |rules|
    ensures forall i :: 0 <= i < |rules| ==>
        r[i] == if i <= BadRule(regex, rules) then TouchRule(regex, rules[i]) else rules[i]
  {
    seq(|rules|, i requires 0 <= i < |rules| =>
      if i <= BadRule(regex, rules) then TouchRule(regex, rules[i]) else rules[i])
  }

  // ---------------------------------------------------------- rewrite rules

  predicate StatusOk(n: int) { 400 <= n <= 599 }

  predicate StatusesOk(r: RewriteRule) {
    && (forall i :: 0 <= i < |OrElse(r.statusCodes, [])| ==> StatusOk(OrElse(r.statusCodes, [])[i]))
    && (r.httpStatus.Some? ==> StatusOk(r.httpStatus.value))
  }

  predicate Rewrites(r: RewriteRule) {
    r.httpStatus.Some? || r.message.Some? || r.errorType.Some? || r.code.Some? || r.body.Some?
  }

  predicate BodyPatternOk(regex: Regex, r: RewriteRule) {
    r.bodyPattern.Some? ==> Trim(r.bodyPattern.value) == "" || regex(Trim(r.bodyPattern.value))
  }

  predicate RewriteOk(regex: Regex, r: RewriteRule) {
    StatusesOk(r) && BodyPatternOk(regex, r) && Rewrites(r)
  }

  function TouchRewrite(r: RewriteRule): RewriteRule {
    if StatusesOk(r) && r.bodyPattern.Some? then r.(bodyPattern := Some(Trim(r.bodyPattern.value))) else r
  }

  function BadRewrite(regex: Regex, rules: seq<RewriteRule>): (n: nat)
    ensures n <= |rules| && (n < |rules| ==> !RewriteOk(regex, rules[n]))
    ensures forall i :: 0 <= i < n ==> RewriteOk(regex, rules[i])
  {
    FirstBad(rules, (r: RewriteRule) => RewriteOk(regex, r))
  }

  function TouchedRewrites(regex: Regex, rules: seq<RewriteRule>): (r: seq<RewriteRule>)
    ensures |r| == |rules|
    ensures forall i :: 0 <= i < |rules| ==>
        r[i] == if i <= BadRewrite(regex, rules) then TouchRewrite(rules[i]) else rules[i]
  {
    seq(|rules|, i requires 0 <= i < |rules| =>
      if i <= BadRewrite(regex, rules) then TouchRewrite(rules[i]) else rules[i])
  }

  // ------------------------------------------------------------ whole passes

  datatype Outcome = Outcome(settings: Settings, problem: Option<Problem>)

  function RulesAfter(regex: Regex, rules: Option<seq<AutoRule>>): Option<seq<AutoRule>> {
    if rules.None? then None else Some(TouchedRules(regex, rules.value))
  }

  /** The complaint about the first refused rule, numbered from one. */
  function RulesProblem(regex: Regex, rules: Option<seq<AutoRule>>): Option<Problem> {
    var n := BadRule(regex, OrElse(rules, []));
    if n < |OrElse(rules, [])| then Some(RuleProblem(n + 1)) else None
  }

  function RewritesAfter(regex: Regex, rules: Option<seq<RewriteRule>>): Option<seq<RewriteRule>> {
    if rules.None? then None else Some(TouchedRewrites(regex, rules.value))
  }

  function RewritesProblem(regex: Regex, rules: Option<seq<RewriteRule>>): Option<Problem> {
    var n := BadRewrite(regex, OrElse(rules, []));
    if n < |OrElse(rules, [])| then Some(RewriteProblem(n + 1)) else None
  }

  /** The settings after a pass, and the complaint that ended it, if any. */
  function Pass(regex: Regex, s: Settings): Outcome {
    if !BillingOk(s.currency, s.multiplier) then Outcome(s, Some(Billing))
    else
      var s1 := s.(currency := NormalCurrency(s.currency), rules := RulesAfter(regex, s.rules));
      if RulesProblem(regex, s.rules).Some? then Outcome(s1, RulesProblem(regex, s.rules))
      else Outcome(s1.(rewrites := RewritesAfter(regex, s.rewrites)), RewritesProblem(regex, s.rewrites))
  }

  // ------------------------------------------------ what callers are promised

  /** `t` is `s` without surrounding white space, in small letters. */
  ghost predicate LowerTrimmed(s: string, t: string) { exists m :: TrimsTo(s, m) && LowersTo(m, t) }

  /** `t` is `s` without surrounding white space, in capitals. */
  ghost predicate UpperTrimmed(s: string, t: string) { exists m :: TrimsTo(s, m) && UppersTo(m, t) }

  lemma LowerTrimmedIff(s: string, t: string)
    ensures LowerTrimmed(s, t) <==> t == Lower(Trim(s))
  {
    TrimIff(s, Trim(s));
    LowerIff(Trim(s), t);
    if m :| TrimsTo(s, m) && LowersTo(m, t) { TrimIff(s, m); }
  }

  lemma UpperTrimmedIff(s: string, t: string)
    ensures UpperTrimmed(s, t) <==> t == Upper(Trim(s))
  {
    TrimIff(s, Trim(s));
    UpperIff(Trim(s), t);
    if m :| TrimsTo(s, m) && UppersTo(m, t) { TrimIff(s, m); }
  }

  /** Mapping rule `r` is acceptable and stored as `r'`. */
  ghost predicate RuleStored(regex: Regex, r: AutoRule, r': AutoRule) {
    && TrimsTo(r.pattern, r'.pattern) && r'.pattern != "" && regex(r'.pattern)
    && TrimsTo(r.template, r'.template) && r'.template != ""
    && r'.modelType.Some?
    && LowerTrimmed(if r.modelType.Some? then r.modelType.value else "chat", r'.modelType.value)
    && KnownType(r'.modelType.value)
  }

  predicate KnownType(t: string) {
    t == "chat" || t == "embedding" || t == "rerank" || t == "image_generation" || t == "video_generation"
  }

  /** Rewrite rule `r` is acceptable and stored as `r'`. */
  ghost predicate RewriteStored(regex: Regex, r: RewriteRule, r': RewriteRule) {
    && r' == r.(bodyPattern := r'.bodyPattern)
    && (r.statusCodes.Some? ==> forall c :: c in r.statusCodes.value ==> 400 <= c < 600)
    && (r.httpStatus.Some? ==> 400 <= r.httpStatus.value < 600)
    && !(r.httpStatus == None && r.message == None && r.errorType == None && r.code == None && r.body == None)
    && (r.bodyPattern.None? <==> r'.bodyPattern.None?)
    && (r.bodyPattern.Some? ==>
          && TrimsTo(r.bodyPattern.value, r'.bodyPattern.value)
          && (r'.bodyPattern.value == "" || regex(r'.bodyPattern.value)))
  }

  /** Currency and multiplier come together, the code of three letters and the
      multiplier positive; the code is stored as `stored`. */
  ghost predicate BillingStored(currency: Option<string>, multiplier: Option<real>, stored: Option<string>) {
    && (currency.None? <==> multiplier.None?) && (currency.None? <==> stored.None?)
    && (currency.Some? ==>
          && multiplier.value > 0.0 && UpperTrimmed(currency.value, stored.value)
          && |stored.value| == 3 && forall i :: 0 <= i < 3 ==> 'A' <= stored.value[i] <= 'Z')
  }

  /** Settings `s` are acceptable and stored as `s'`. */
  ghost predicate Stored(regex: Regex, s: Settings, s': Settings) {
    && s'.multiplier == s.multiplier
    && BillingStored(s.currency, s.multiplier, s'.currency)
    && (s'.rules.Some? <==> s.rules.Some?) && (s'.rewrites.Some? <==> s.rewrites.Some?)
    && (s.rules.Some? ==>
          && |s'.rules.value| == |s.rules.value|
          && forall i :: 0 <= i < |s.rules.value| ==> RuleStored(regex, s.rules.value[i], s'.rules.value[i]))
    && (s.rewrites.Some? ==>
          && |s'.rewrites.value| == |s.rewrites.value|
          && forall i :: 0 <= i < |s.rewrites.value| ==>
               RewriteStored(regex, s.rewrites.value[i], s'.rewrites.value[i]))
  }

  lemma KnownTypeIff(t: string)
    ensures KnownType(t) <==> t in MODEL_TYPES
  {
  }

  lemma RuleStoredIff(regex: Regex, r: AutoRule, r': AutoRule)
    ensures RuleStored(regex, r, r') <==> RuleOk(regex, r) && r' == TouchRule(regex, r)
  {
    TrimIff(r.pattern, r'.pattern);
    TrimIff(r.template, r'.template);
    KnownTypeIff(NormalType(r));
    if r'.modelType.Some? { LowerTrimmedIff(OrElse(r.modelType, "chat"), r'.modelType.value); }
  }

  lemma StatusesIff(r: RewriteRule)
    ensures StatusesOk(r) <==>
      && (r.statusCodes.Some? ==> forall c :: c in r.statusCodes.value ==> 400 <= c < 600)
      && (r.httpStatus.Some? ==> 400 <= r.httpStatus.value < 600)
  {
    var codes := OrElse(r.statusCodes, []);
    assert forall i :: 0 <= i < |codes| ==> codes[i] in codes;
    if forall i :: 0 <= i < |codes| ==> StatusOk(codes[i]) {
      forall c | c in codes ensures 400 <= c < 600 {
        var i :| 0 <= i < |codes| && codes[i] == c;
        assert StatusOk(codes[i]);
      }
    }
  }

  lemma RewriteStoredIff(regex: Regex, r: RewriteRule, r': RewriteRule)
    ensures RewriteStored(regex, r, r') <==> RewriteOk(regex, r) && r' == TouchRewrite(r)
  {
    StatusesIff(r);
    if r.bodyPattern.Some? && r'.bodyPattern.Some? { TrimIff(r.bodyPattern.value, r'.bodyPattern.value); }
  }

  lemma BillingStoredIff(currency: Option<string>, multiplier: Option<real>, stored: Option<string>)
    ensures BillingStored(currency, multiplier, stored) <==>
      BillingOk(currency, multiplier) && stored == NormalCurrency(currency)
  {
    if currency.Some? && stored.Some? { UpperTrimmedIff(currency.value, stored.value); }
  }

  lemma RulesStoredIff(regex: Regex, rules: seq<AutoRule>, rules': seq<AutoRule>)
    requires |rules| == |rules'|
    ensures (forall i :: 0 <= i < |rules| ==> RuleStored(regex, rules[i], rules'[i])) <==>
      BadRule(regex, rules) == |rules| && rules' == TouchedRules(regex, rules)
  {
    forall i | 0 <= i < |rules|
      ensures RuleStored(regex, rules[i], rules'[i]) <==>
        RuleOk(regex, rules[i]) && rules'[i] == TouchRule(regex, rules[i])
    {
      RuleStoredIff(regex, rules[i], rules'[i]);
    }
  }

  lemma RewritesStoredIff(regex: Regex, rules: seq<RewriteRule>, rules': seq<RewriteRule>)
    requires |rules| == |rules'|
    ensures (forall i :: 0 <= i < |rules| ==> RewriteStored(regex, rules[i], rules'[i])) <==>
      BadRewrite(regex, rules) == |rules| && rules' == TouchedRewrites(regex, rules)
  {
    forall i | 0 <= i < |rules|
      ensures RewriteStored(regex, rules[i], rules'[i]) <==>
        RewriteOk(regex, rules[i]) && rules'[i] == TouchRewrite(rules[i])
    {
      RewriteStoredIff(regex, rules[i], rules'[i]);
    }
  }

  /** A pass accepts exactly the acceptable settings, and stores what was submitted
      with white space and case normalised, and nothing else changed. */
  lemma AcceptedIff(regex: Regex, s: Settings, s': Settings)
    ensures Pass(regex, s) == Outcome(s', None) <==> Stored(regex, s, s')
  {
    BillingStoredIff(s.currency, s.multiplier, s'.currency);
    if s.rules.Some? && s'.rules.Some? && |s.rules.value| == |s'.rules.value| {
      RulesStoredIff(regex, s.rules.value, s'.rules.value);
    }
    if s.rewrites.Some? && s'.rewrites.Some? && |s.rewrites.value| == |s'.rewrites.value| {
      RewritesStoredIff(regex, s.rewrites.value, s'.rewrites.value);
    }
  }

  /** What to complain about, given whether the billing metadata are acceptable and
      how many rules of either kind are, in order, before the first other one. */
  function FirstProblem(billing: bool, rulesOk: nat, rules: nat, rewritesOk: nat, rewrites: nat): Option<Problem> {
    if !billing then Some(Billing)
    else if rulesOk < rules then Some(RuleProblem(rulesOk + 1))
    else if rewritesOk < rewrites then Some(RewriteProblem(rewritesOk + 1))
    else None
  }

  /** `problem` names the first thing in `s` that is not acceptable, if any. */
  ghost predicate Complains(regex: Regex, s: Settings, problem: Option<Problem>) {
    var rules, rewrites := OrElse(s.rules, []), OrElse(s.rewrites, []);
    problem == FirstProblem(
      BillingStorable(s), Storables(regex, rules), |rules|, RewriteStorables(regex, rewrites), |rewrites|)
  }

  ghost predicate BillingStorable(s: Settings) { exists c :: BillingStored(s.currency, s.multiplier, c) }

  /** How many acceptable rules there are before the first other one. */
  ghost function Storables(regex: Regex, rules: seq<AutoRule>): (n: nat)
    ensures n <= |rules| && (n < |rules| ==> !Storable(regex, rules[n]))
    ensures forall i :: 0 <= i < n ==> Storable(regex, rules[i])
  {
    FirstBad(rules, (r: AutoRule) => Storable(regex, r))
  }

  ghost function RewriteStorables(regex: Regex, rules: seq<RewriteRule>): (n: nat)
    ensures n <= |rules| && (n < |rules| ==> !RewriteStorable(regex, rules[n]))
    ensures forall i :: 0 <= i < n ==> RewriteStorable(regex, rules[i])
  {
    FirstBad(rules, (r: RewriteRule) => RewriteStorable(regex, r))
  }

  ghost predicate Storable(regex: Regex, r: AutoRule) { exists r' :: RuleStored(regex, r, r') }

  ghost predicate RewriteStorable(regex: Regex, r: RewriteRule) { exists r' :: RewriteStored(regex, r, r') }

  lemma StorableIff(regex: Regex, r: AutoRule)
    ensures Storable(regex, r) <==> RuleOk(regex, r)
  {
    RuleStoredIff(regex, r, TouchRule(regex, r));
    if r' :| RuleStored(regex, r, r') { RuleStoredIff(regex, r, r'); }
  }

  lemma RewriteStorableIff(regex: Regex, r: RewriteRule)
    ensures RewriteStorable(regex, r) <==> RewriteOk(regex, r)
  {
    RewriteStoredIff(regex, r, TouchRewrite(r));
    if r' :| RewriteStored(regex, r, r') { RewriteStoredIff(regex, r, r'); }
  }

  lemma BillingStorableIff(s: Settings)
    ensures BillingStorable(s) <==> BillingOk(s.currency, s.multiplier)
  {
    BillingStoredIff(s.currency, s.multiplier, NormalCurrency(s.currency));
    if c :| BillingStored(s.currency, s.multiplier, c) { BillingStoredIff(s.currency, s.multiplier, c); }
  }

  lemma StorablesAre(regex: Regex, rules: seq<AutoRule>)
    ensures Storables(regex, rules) == BadRule(regex, rules)
  {
    var m, n := Storables(regex, rules), BadRule(regex, rules);
    if m < n { StorableIff(regex, rules[m]); }
    if n < m { StorableIff(regex, rules[n]); }
  }

  lemma RewriteStorablesAre(regex: Regex, rules: seq<RewriteRule>)
    ensures RewriteStorables(regex, rules) == BadRewrite(regex, rules)
  {
    var m, n := RewriteStorables(regex, rules), BadRewrite(regex, rules);
    if m < n { RewriteStorableIff(regex, rules[m]); }
    if n < m { RewriteStorableIff(regex, rules[n]); }
  }

  lemma PassProblem(regex: Regex, s: Settings)
    ensures
      var rules, rewrites := OrElse(s.rules, []), OrElse(s.rewrites, []);
      Pass(regex, s).problem == FirstProblem(
        BillingOk(s.currency, s.multiplier), BadRule(regex, rules), |rules|, BadRewrite(regex, rewrites), |rewrites|)
  {
  }

  lemma PassComplains(regex: Regex, s: Settings)
    ensures Complains(regex, s, Pass(regex, s).problem)
  {
    PassProblem(regex, s);
    BillingStorableIff(s);
    StorablesAre(regex, OrElse(s.rules, []));
    RewriteStorablesAre(regex, OrElse(s.rewrites, []));
  }

  /** A pass accepts exactly if there is something to store, and stores that, in
      normal form; otherwise it names the first problem. */
  ghost predicate Decides(regex: Regex, s: Settings, r: Outcome) {
    && (r.problem.None? <==> exists s' :: Stored(regex, s, s'))
    && (r.problem.None? ==> Stored(regex, s, r.settings) && Normal(regex, r.settings))
    && Complains(regex, s, r.problem)
  }

  lemma PassDecides(regex: Regex, s: Settings)
    ensures Decides(regex, s, Pass(regex, s))
  {
    var r := Pass(regex, s);
    AcceptedIff(regex, s, r.settings);
    if s' :| Stored(regex, s, s') { AcceptedIff(regex, s, s'); }
    PassComplains(regex, s);
    if r.problem.None? { AcceptedIsNormal(regex, s); }
  }

  class SettingsInput {
    var currency: Option<string>
    var multiplier: Option<real>
    var rules: Option<seq<AutoRule>>
    var rewrites: Option<seq<RewriteRule>>

    function Value(): Settings reads this { Settings(currency, multiplier, rules, rewrites) }

    static method NormalizeRule(regex: Regex, rule: AutoRule) returns (r: AutoRule, ok: bool)
      ensures r == TouchRule(regex, rule) && ok == RuleOk(regex, rule)
    {
      r := rule.(pattern := Trim(rule.pattern), template := Trim(rule.template));
      if r.pattern == "" || r.template == "" || !regex(r.pattern) { return r, false; }
      var modelType := Lower(Trim(OrElse(r.modelType, "chat")));
      if modelType !in MODEL_TYPES { return r, false; }
      return r.(modelType := Some(modelType)), true;
    }

    static method NormalizeRewrite(regex: Regex, rule: RewriteRule) returns (r: RewriteRule, ok: bool)
      ensures r == TouchRewrite(rule) && ok == RewriteOk(regex, rule)
    {
      r := rule;
      if !StatusesOk(r) { return r, false; }
      if r.bodyPattern.Some? {
        var pattern := Trim(r.bodyPattern.value);
        r := r.(bodyPattern := Some(pattern));
        if pattern != "" && !regex(pattern) { return r, false; }
      }
      return r, Rewrites(r);
    }

    method NormalizeRules(regex: Regex) returns (problem: Option<Problem>)
      modifies this`rules
      ensures rules == RulesAfter(regex, old(rules)) && problem == RulesProblem(regex, old(rules))
      ensures old(rules).Some? && problem.None? ==>
        && |rules.value| == |old(rules).value|
        && forall i :: 0 <= i < |rules.value| ==> RuleStored(regex, old(rules).value[i], rules.value[i])
    {
      if rules.None? { return None; }
      var list := rules.value;
      ghost var was := list;
      for i := 0 to |list|
        invariant |list| == |was| && i <= BadRule(regex, was)
        invariant forall j :: 0 <= j < |was| ==> list[j] == if j < i then TouchRule(regex, was[j]) else was[j]
      {
        var r, ok := NormalizeRule(regex, list[i]);
        list := list[i := r];
        if !ok {
          assert list == TouchedRules(regex, was);
          rules := Some(list);
          return Some(RuleProblem(i + 1));
        }
      }
      assert list == TouchedRules(regex, was);
      RulesStoredIff(regex, was, list);
      rules := Some(list);
      return None;
    }

    method NormalizeRewrites(regex: Regex) returns (problem: Option<Problem>)
      modifies this`rewrites
      ensures rewrites == RewritesAfter(regex, old(rewrites)) && problem == RewritesProblem(regex, old(rewrites))
      ensures old(rewrites).Some? && problem.None? ==>
        && |rewrites.value| == |old(rewrites).value|
        && forall i :: 0 <= i < |rewrites.value| ==> RewriteStored(regex, old(rewrites).value[i], rewrites.value[i])
    {
      if rewrites.None? { return None; }
      var list := rewrites.value;
      ghost var was := list;
      for i := 0 to |list|
        invariant |list| == |was| && i <= BadRewrite(regex, was)
        invariant forall j :: 0 <= j < |was| ==> list[j] == if j < i then TouchRewrite(was[j]) else was[j]
      {
        var r, ok := NormalizeRewrite(regex, list[i]);
        list := list[i := r];
        if !ok {
          assert list == TouchedRewrites(regex, was);
          rewrites := Some(list);
          return Some(RewriteProblem(i + 1));
        }
      }
      assert list == TouchedRewrites(regex, was);
      RewritesStoredIff(regex, was, list);
      rewrites := Some(list);
      return None;
    }

    /** Accepted input ends in normal form; refused input is left as far as the
        pass got. */
    method ValidateAndNormalize(regex: Regex) returns (problem: Option<Problem>)
      modifies this
      ensures Outcome(Value(), problem) == Pass(regex, old(Value()))
      ensures Decides(regex, old(Value()), Outcome(Value(), problem))
    {
      ghost var was := Value();
      if BillingOk(currency, multiplier) {
        currency := NormalCurrency(currency);
        problem := NormalizeRules(regex);
        if problem.None? { problem := NormalizeRewrites(regex); }
      } else {
        problem := Some(Billing);
      }
      assert Outcome(Value(), problem) == Pass(regex, was);
      PassDecides(regex, was);
    }
  }

  // ------------------------------------------------------------- idempotence

  lemma CodesAreTrimmed(code: string)
    requires CurrencyCode(code)
    ensures Trim(code) == code
  {
    assert 'A' <= code[0] <= 'Z' && 'A' <= code[2] <= 'Z';
    TrimNormalizes(code);
  }

  lemma NormalCurrencyFixed(currency: string)
    requires CurrencyCode(Upper(Trim(currency)))
    ensures Upper(Trim(Upper(Trim(currency)))) == Upper(Trim(currency))
  {
    CodesAreTrimmed(Upper(Trim(currency)));
    UpperIdempotent(Trim(currency));
  }

  lemma AllowedTypesNormal(t: string)
    requires t in MODEL_TYPES
    ensures Trim(t) == t
  {
    TrimNormalizes(t);
  }

  lemma RuleFixed(regex: Regex, r: AutoRule)
    requires RuleOk(regex, r)
    ensures RuleOk(regex, TouchRule(regex, r)) && TouchRule(regex, TouchRule(regex, r)) == TouchRule(regex, r)
  {
    TrimIdempotent(r.pattern);
    TrimIdempotent(r.template);
    AllowedTypesNormal(NormalType(r));
    LowerIdempotent(Trim(OrElse(r.modelType, "chat")));
  }

  lemma RewriteFixed(regex: Regex, r: RewriteRule)
    requires RewriteOk(regex, r)
    ensures RewriteOk(regex, TouchRewrite(r)) && TouchRewrite(TouchRewrite(r)) == TouchRewrite(r)
  {
    if r.bodyPattern.Some? { TrimIdempotent(r.bodyPattern.value); }
  }

  /** The shape that accepted settings have. */
  ghost predicate Normal(regex: Regex, s: Settings) {
    && (s.currency.Some? <==> s.multiplier.Some?)
    && (s.currency.Some? ==> CurrencyCode(s.currency.value) && s.multiplier.value > 0.0)
    && (s.rules.Some? ==> forall i :: 0 <= i < |s.rules.value| ==> NormalRule(regex, s.rules.value[i]))
    && (s.rewrites.Some? ==> forall i :: 0 <= i < |s.rewrites.value| ==> NormalRewrite(regex, s.rewrites.value[i]))
  }

  predicate NormalRule(regex: Regex, r: AutoRule) {
    && r.pattern != "" && Trimmed(r.pattern) && regex(r.pattern)
    && r.template != "" && Trimmed(r.template)
    && r.modelType.Some? && r.modelType.value in MODEL_TYPES
  }

  predicate NormalRewrite(regex: Regex, r: RewriteRule) {
    && StatusesOk(r) && Rewrites(r)
    && (r.bodyPattern.Some? ==> Trimmed(r.bodyPattern.value) && (r.bodyPattern.value == "" || regex(r.bodyPattern.value)))
  }

  lemma TouchedRuleNormal(regex: Regex, r: AutoRule)
    requires RuleOk(regex, r)
    ensures NormalRule(regex, TouchRule(regex, r))
  {
    TrimNormalizes(r.pattern);
    TrimNormalizes(r.template);
  }

  lemma TouchedRewriteNormal(regex: Regex, r: RewriteRule)
    requires RewriteOk(regex, r)
    ensures NormalRewrite(regex, TouchRewrite(r))
  {
    if r.bodyPattern.Some? { TrimNormalizes(r.bodyPattern.value); }
  }

  /** Accepted settings are in normal form. */
  lemma AcceptedIsNormal(regex: Regex, s: Settings)
    requires Pass(regex, s).problem.None?
    ensures Normal(regex, Pass(regex, s).settings)
  {
    var rules, rewrites := OrElse(s.rules, []), OrElse(s.rewrites, []);
    forall i | 0 <= i < |rules| ensures NormalRule(regex, TouchedRules(regex, rules)[i]) {
      TouchedRuleNormal(regex, rules[i]);
    }
    forall i | 0 <= i < |rewrites| ensures NormalRewrite(regex, TouchedRewrites(regex, rewrites)[i]) {
      TouchedRewriteNormal(regex, rewrites[i]);
    }
  }

  lemma RulesFixed(regex: Regex, rules: seq<AutoRule>)
    requires BadRule(regex, rules) == |rules|
    ensures
      var touched := TouchedRules(regex, rules);
      BadRule(regex, touched) == |touched| && TouchedRules(regex, touched) == touched
  {
    var touched := TouchedRules(regex, rules);
    forall i | 0 <= i < |rules| ensures RuleOk(regex, touched[i]) && TouchRule(regex, touched[i]) == touched[i] {
      RuleFixed(regex, rules[i]);
    }
  }

  lemma RewritesFixed(regex: Regex, rules: seq<RewriteRule>)
    requires BadRewrite(regex, rules) == |rules|
    ensures
      var touched := TouchedRewrites(regex, rules);
      BadRewrite(regex, touched) == |touched| && TouchedRewrites(regex, touched) == touched
  {
    var touched := TouchedRewrites(regex, rules);
    forall i | 0 <= i < |rules| ensures RewriteOk(regex, touched[i]) && TouchRewrite(touched[i]) == touched[i] {
      RewriteFixed(regex, rules[i]);
    }
  }

  /** If a pass accepts, a second one accepts and changes nothing. */
  lemma PassIdempotent(regex: Regex, s: Settings)
    requires Pass(regex, s).problem.None?
    ensures Pass(regex, Pass(regex, s).settings) == Pass(regex, s)
  {
    if s.currency.Some? { NormalCurrencyFixed(s.currency.value); }
    RulesFixed(regex, OrElse(s.rules, []));
    RewritesFixed(regex, OrElse(s.rewrites, []));
  }
}
