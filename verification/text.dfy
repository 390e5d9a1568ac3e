/** Strings as the program sees them: the order of `BTreeMap` keys, ASCII case
    folding, `str::trim` and `str::contains`. */
module Text {

  // ---------------------------------------------------------------- order

  /** Byte order of UTF-8 strings, which coincides with code-point order. */
  predicate Less(a: string, b: string) {
    if |b| == 0 then false
    else if |a| == 0 then true
    else if a[0] != b[0] then a[0] < b[0]
    else Less(a[1..], b[1..])
  }

  lemma {:induction false} LessIrreflexive(a: string)
    ensures !Less(a, a)
    decreases |a|
  {
    if |a| > 0 { LessIrreflexive(a[1..]); }
  }

  lemma {:induction false} LessTransitive(a: string, b: string, c: string)
    requires Less(a, b) && Less(b, c)
    ensures Less(a, c)
    decreases |a|
  {
    if |a| > 0 && a[0] == b[0] == c[0] { LessTransitive(a[1..], b[1..], c[1..]); }
  }

  lemma {:induction false} LessTotal(a: string, b: string)
    ensures a == b || Less(a, b) || Less(b, a)
    decreases |a|
  {
    if |a| > 0 && |b| > 0 && a[0] == b[0] {
      LessTotal(a[1..], b[1..]);
      assert a == [a[0]] + a[1..] && b == [b[0]] + b[1..];
    }
  }

  /** The order spelled out: after a common prefix the first string ends, or has
      the smaller character. */
  ghost predicate DiffersAt(a: string, b: string, k: nat) {
    && k <= |a| && k < |b| && (forall i :: 0 <= i < k ==> a[i] == b[i])
    && (k < |a| ==> a[k] < b[k])
  }

  lemma {:induction false} LessIff(a: string, b: string)
    ensures Less(a, b) <==> exists k :: DiffersAt(a, b, k)
    decreases |a|
  {
    if |a| == 0 || |b| == 0 {
      assert |b| > 0 ==> DiffersAt(a, b, 0);
    } else if a[0] != b[0] {
      assert a[0] < b[0] ==> DiffersAt(a, b, 0);
    } else {
      LessIff(a[1..], b[1..]);
      if k: nat :| DiffersAt(a[1..], b[1..], k) {
        assert forall i :: 0 < i < k + 1 ==> a[i] == a[1..][i - 1] && b[i] == b[1..][i - 1];
        assert DiffersAt(a, b, k + 1);
      }
      if k: nat :| DiffersAt(a, b, k) {
        assert DiffersAt(a[1..], b[1..], k - 1);
      }
    }
  }

  lemma LessAsymmetric(a: string, b: string)
    requires Less(a, b)
    ensures !Less(b, a)
  {
    if Less(b, a) {
      LessTransitive(a, b, a);
      LessIrreflexive(a);
    }
  }

  // ----------------------------------------------------------- ASCII case

  function LowerChar(c: char): (r: char)
    ensures !('A' <= r <= 'Z')
    ensures if 'A' <= c <= 'Z' then r as int == c as int + 32 else r == c
  {
    if 'A' <= c <= 'Z' then ((c as int) - ('A' as int) + ('a' as int)) as char else c
  }

  /** `str::to_ascii_lowercase`. */
  function Lower(s: string): string {
    if s == "" then "" else [LowerChar(s[0])] + Lower(s[1..])
  }

  function UpperChar(c: char): (r: char)
    ensures !('a' <= r <= 'z')
    ensures if 'a' <= c <= 'z' then r as int == c as int - 32 else r == c
  {
    if 'a' <= c <= 'z' then ((c as int) - ('a' as int) + ('A' as int)) as char else c
  }

  /** `str::to_ascii_uppercase`. */
  function Upper(s: string): string {
    if s == "" then "" else [UpperChar(s[0])] + Upper(s[1..])
  }

  /** `t` is `s` with every ASCII capital replaced by its small letter. */
  predicate LowersTo(s: string, t: string) {
    |t| == |s| && forall i :: 0 <= i < |s| ==>
      if 'A' <= s[i] <= 'Z' then t[i] as int == s[i] as int + 32 else t[i] == s[i]
  }

  /** `t` is `s` with every small ASCII letter replaced by its capital. */
  predicate UppersTo(s: string, t: string) {
    |t| == |s| && forall i :: 0 <= i < |s| ==>
      if 'a' <= s[i] <= 'z' then t[i] as int == s[i] as int - 32 else t[i] == s[i]
  }

  lemma {:induction false} LowerIff(s: string, t: string)
    ensures LowersTo(s, t) <==> t == Lower(s)
    decreases |s|
  {
    if s != "" && t != "" {
      LowerIff(s[1..], t[1..]);
      assert t == [t[0]] + t[1..];
      assert Lower(s)[0] == LowerChar(s[0]) && Lower(s)[1..] == Lower(s[1..]);
      if LowersTo(s, t) { assert LowersTo(s[1..], t[1..]); }
    }
  }

  lemma {:induction false} UpperIff(s: string, t: string)
    ensures UppersTo(s, t) <==> t == Upper(s)
    decreases |s|
  {
    if s != "" && t != "" {
      UpperIff(s[1..], t[1..]);
      assert t == [t[0]] + t[1..];
      assert Upper(s)[0] == UpperChar(s[0]) && Upper(s)[1..] == Upper(s[1..]);
      if UppersTo(s, t) { assert UppersTo(s[1..], t[1..]); }
    }
  }

  lemma {:induction false} LowerIdempotent(s: string)
    ensures Lower(Lower(s)) == Lower(s)
    decreases |s|
  {
    if s != "" { LowerIdempotent(s[1..]); }
  }

  lemma {:induction false} UpperIdempotent(s: string)
    ensures Upper(Upper(s)) == Upper(s)
    decreases |s|
  {
    if s != "" { UpperIdempotent(s[1..]); }
  }

  lemma {:induction false} LowerConcat(a: string, b: string)
    ensures Lower(a + b) == Lower(a) + Lower(b)
    decreases |a|
  {
    if a == "" {
      assert a + b == b;
    } else {
      LowerConcat(a[1..], b);
      assert (a + b)[1..] == a[1..] + b;
    }
  }

  // ------------------------------------------------------------- trimming

  /** The Unicode `White_Space` property, which `str::trim` strips. */
  predicate IsSpace(c: char) {
    '\U{9}' <= c <= '\U{D}' || c == ' ' || c == '\U{85}' || c == '\U{A0}' || c == '\U{1680}'
    || '\U{2000}' <= c <= '\U{200A}' || c == '\U{2028}' || c == '\U{2029}' || c == '\U{202F}'
    || c == '\U{205F}' || c == '\U{3000}'
  }

  function TrimStart(s: string): string {
    if s != "" && IsSpace(s[0]) then TrimStart(s[1..]) else s
  }

  function TrimEnd(s: string): string {
    if s != "" && IsSpace(s[|s| - 1]) then TrimEnd(s[..|s| - 1]) else s
  }

  /** `str::trim`. */
  function Trim(s: string): string { TrimEnd(TrimStart(s)) }

  /** No white space at either end. */
  predicate Trimmed(s: string) {
    s != "" ==> !IsSpace(s[0]) && !IsSpace(s[|s| - 1])
  }

  lemma {:induction false} TrimEndKeepsStart(s: string)
    requires s != "" ==> !IsSpace(s[0])
    ensures Trimmed(TrimEnd(s))
    decreases |s|
  {
    if s != "" && IsSpace(s[|s| - 1]) { TrimEndKeepsStart(s[..|s| - 1]); }
  }

  lemma {:induction false} TrimStartStarts(s: string)
    ensures TrimStart(s) != "" ==> !IsSpace(TrimStart(s)[0])
    decreases |s|
  {
    if s != "" && IsSpace(s[0]) { TrimStartStarts(s[1..]); }
  }

  /** Trimming yields a trimmed string, and leaves exactly the trimmed strings alone. */
  lemma TrimNormalizes(s: string)
    ensures Trimmed(Trim(s))
    ensures Trimmed(s) <==> Trim(s) == s
  {
    TrimStartStarts(s);
    TrimEndKeepsStart(TrimStart(s));
  }

  lemma TrimIdempotent(s: string)
    ensures Trim(Trim(s)) == Trim(s)
  {
    TrimNormalizes(s);
    TrimNormalizes(Trim(s));
  }

  predicate AllSpace(s: string) { forall i :: 0 <= i < |s| ==> IsSpace(s[i]) }

  /** `t` is `s` without the white space at its ends. */
  ghost predicate TrimsTo(s: string, t: string) {
    Trimmed(t) && exists lead, tail :: Around(s, lead, t, tail)
  }

  predicate Around(s: string, lead: string, t: string, tail: string) {
    s == lead + t + tail && AllSpace(lead) && AllSpace(tail)
  }

  lemma {:induction false} TrimStartSplits(s: string) returns (lead: string)
    ensures s == lead + TrimStart(s) && AllSpace(lead)
    decreases |s|
  {
    if s != "" && IsSpace(s[0]) {
      var rest := TrimStartSplits(s[1..]);
      lead := [s[0]] + rest;
      assert s == [s[0]] + s[1..];
    } else {
      lead := "";
    }
  }

  lemma {:induction false} TrimEndSplits(s: string) returns (tail: string)
    ensures s == TrimEnd(s) + tail && AllSpace(tail)
    decreases |s|
  {
    if s != "" && IsSpace(s[|s| - 1]) {
      var rest := TrimEndSplits(s[..|s| - 1]);
      tail := rest + [s[|s| - 1]];
      assert s == s[..|s| - 1] + [s[|s| - 1]];
    } else {
      tail := "";
    }
  }

  lemma TrimTrims(s: string)
    ensures TrimsTo(s, Trim(s))
  {
    TrimNormalizes(s);
    var lead := TrimStartSplits(s);
    var tail := TrimEndSplits(TrimStart(s));
    assert s == lead + Trim(s) + tail;
    assert Around(s, lead, Trim(s), tail);
  }

  lemma {:induction false} TrimStartDrops(lead: string, s: string)
    requires AllSpace(lead)
    ensures TrimStart(lead + s) == TrimStart(s)
    decreases |lead|
  {
    if lead == "" {
      assert lead + s == s;
    } else {
      assert IsSpace(lead[0]) && AllSpace(lead[1..]);
      assert (lead + s)[1..] == lead[1..] + s;
      TrimStartDrops(lead[1..], s);
    }
  }

  lemma {:induction false} TrimEndDrops(s: string, tail: string)
    requires AllSpace(tail)
    ensures TrimEnd(s + tail) == TrimEnd(s)
    decreases |tail|
  {
    if tail == "" {
      assert s + tail == s;
    } else {
      var init := tail[..|tail| - 1];
      assert IsSpace(tail[|tail| - 1]) && AllSpace(init);
      assert (s + tail)[..|s + tail| - 1] == s + init;
      TrimEndDrops(s, init);
    }
  }

  /** Trimming is removing the white space at the ends, and nothing else. */
  lemma TrimIff(s: string, t: string)
    ensures TrimsTo(s, t) <==> t == Trim(s)
  {
    TrimTrims(s);
    if TrimsTo(s, t) {
      var lead, tail :| Around(s, lead, t, tail);
      assert s == lead + (t + tail);
      TrimStartDrops(lead, t + tail);
      if t == "" {
        assert t + tail == tail + "";
        TrimStartDrops(tail, "");
      } else {
        assert TrimStart(t + tail) == t + tail;
        TrimEndDrops(t, tail);
      }
    }
  }

  // ------------------------------------------------------------ substrings

  /** `str::contains` for a string needle. */
  predicate Contains(s: string, needle: string) {
    exists i :: 0 <= i <= |s| && needle <= s[i..]
  }

  lemma ContainsWiden(pre: string, s: string, post: string, needle: string)
    requires Contains(s, needle)
    ensures Contains(pre + s + post, needle)
  {
    var i :| 0 <= i <= |s| && needle <= s[i..];
    assert (pre + s + post)[|pre| + i..] == s[i..] + post;
  }
}
