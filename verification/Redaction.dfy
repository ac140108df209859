/**
 The literal stage of the executor's redaction: every sufficiently long secret, longest
 first, is replaced by a token.  The difficulty is that a replacement can complete a new
 occurrence of a secret with a piece of the token.
 */
module Redaction {
  const TOKEN: string := "[REDACTED]"
  const MIN_SECRET: nat := 8

  predicate OccursAt(text: string, s: string, i: nat) {
    i + |s| <= |text| && text[i..i + |s|] == s
  }

  predicate Occurs(text: string, s: string) {
    exists i: nat | i <= |text| :: OccursAt(text, s, i)
  }

  /** The first position at or after `from` where `s` occurs, or the length of the text if there is none. */
  function Find(text: string, s: string, from: nat): (i: nat)
    requires 0 < |s| && from <= |text|
    ensures from <= i <= |text|
    ensures i < |text| ==> OccursAt(text, s, i)
    ensures forall j :: from <= j < i ==> !OccursAt(text, s, j)
    decreases |text| - from
  {
    if from == |text| then from
    else if OccursAt(text, s, from) then from
    else Find(text, s, from + 1)
  }

  /** Replaces the leftmost occurrence, then continues after it. */
  function Replace(text: string, s: string): string
    requires 0 < |s|
    decreases |text|
  {
    var i := Find(text, s, 0);
    if i == |text| then text
    else text[..i] + TOKEN + Replace(text[i + |s|..], s)
  }

  function RedactAll(text: string, order: seq<string>): string
    requires forall s | s in order :: 0 < |s|
    decreases |order|
  {
    if order == [] then text else RedactAll(Replace(text, order[0]), order[1..])
  }

  /** The secrets in the order they are processed; secrets of one length may come in any order. */
  ghost predicate ProcessingOrder(secrets: seq<string>, order: seq<string>) {
    && (forall s :: s in order <==> s in secrets && |s| >= MIN_SECRET)
    && (forall i, j | 0 <= i < j < |order| :: order[i] != order[j] && |order[i]| >= |order[j]|)
  }

  /******* When a secret and the token can be confused *******/

  predicate EndsInToken(s: string, k: nat) {
    0 < k <= |s| && k <= |TOKEN| && s[|s| - k..] == TOKEN[..k]
  }

  predicate StartsInToken(s: string, k: nat) {
    0 < k <= |s| && k <= |TOKEN| && s[..k] == TOKEN[|TOKEN| - k..]
  }

  /** The secret shares nothing with the token, whole or in part. */
  predicate TokenFree(s: string) {
    && !Occurs(TOKEN, s) && !Occurs(s, TOKEN)
    && (forall k: nat | k <= |s| :: !EndsInToken(s, k))
    && (forall k: nat | k <= |s| :: !StartsInToken(s, k))
  }

  /** The secret, preceded by all of it but its last k characters. */
  function Stutter(s: string, k: nat): string
    requires k <= |s|
  {
    s[..|s| - k] + s
  }

  predicate RepeatsEarly(s: string, k: nat)
    requires k <= |s|
  {
    exists j: nat | j < |s| - k :: OccursAt(Stutter(s, k), s, j)
  }

  /**
   As TokenFree, except that the secret may end like the token begins where its own
   repetition means that a left-to-right search never stops right before that ending.
   */
  predicate SelfClean(s: string) {
    && !Occurs(TOKEN, s) && !Occurs(s, TOKEN)
    && (forall k: nat | k <= |s| :: !StartsInToken(s, k))
    && (forall k: nat | k <= |s| :: EndsInToken(s, k) ==> RepeatsEarly(s, k))
  }

  lemma InsideToken(before: string, after: string, u: string, k: nat)
    requires OccursAt(before + TOKEN + after, u, k) && |before| <= k && k + |u| <= |before| + |TOKEN|
    ensures Occurs(TOKEN, u)
  {
    var b, all := |before|, before + TOKEN + after;
    assert forall i :: 0 <= i < |u| ==> u[i] == all[k + i];
    assert TOKEN[k - b..k - b + |u|] == u;
    assert OccursAt(TOKEN, u, k - b);
  }

  lemma AcrossToken(before: string, after: string, u: string, k: nat)
    requires OccursAt(before + TOKEN + after, u, k) && k <= |before| && |before| + |TOKEN| <= k + |u|
    ensures Occurs(u, TOKEN)
  {
    var b, t, all := |before|, |TOKEN|, before + TOKEN + after;
    assert forall i :: 0 <= i < |u| ==> u[i] == all[k + i];
    assert u[b - k..b - k + t] == TOKEN;
    assert OccursAt(u, TOKEN, b - k);
  }

  lemma OutOfToken(before: string, after: string, u: string, k: nat)
    requires OccursAt(before + TOKEN + after, u, k) && |before| < k < |before| + |TOKEN| < k + |u|
    ensures StartsInToken(u, |before| + |TOKEN| - k)
  {
    var b, t, all := |before|, |TOKEN|, before + TOKEN + after;
    assert forall i :: 0 <= i < |u| ==> u[i] == all[k + i];
    var n := b + t - k;
    assert u[..n] == TOKEN[t - n..];
  }

  /** How an occurrence can lie in a text whose middle is one token. */
  lemma AroundToken(before: string, after: string, u: string, k: nat)
    requires 0 < |u| && OccursAt(before + TOKEN + after, u, k)
    requires !Occurs(TOKEN, u) && !Occurs(u, TOKEN) && (forall n: nat | n <= |u| :: !StartsInToken(u, n))
    ensures
      || OccursAt(before, u, k)
      || (k >= |before| + |TOKEN| && OccursAt(after, u, k - |before| - |TOKEN|))
      || (k < |before| < k + |u| < |before| + |TOKEN|
          && EndsInToken(u, k + |u| - |before|) && u[..|before| - k] == before[k..])
  {
    var b, t := |before|, |TOKEN|;
    var all := before + TOKEN + after;
    assert forall i :: 0 <= i < |u| ==> u[i] == all[k + i];
    if k + |u| <= b {
      assert before[k..k + |u|] == u;
    } else if k >= b + t {
      assert after[k - b - t..k - b - t + |u|] == u;
    } else if b <= k && k + |u| <= b + t {
      InsideToken(before, after, u, k);
    } else if k <= b && b + t <= k + |u| {
      AcrossToken(before, after, u, k);
    } else if b < k {
      OutOfToken(before, after, u, k);
    } else {
      var n := k + |u| - b;
      assert u[|u| - n..] == TOKEN[..n];
      assert u[..b - k] == before[k..];
    }
  }

  lemma OccursWithin(text: string, u: string, from: nat, to: nat, k: nat)
    requires from <= to <= |text| && OccursAt(text[from..to], u, k)
    ensures OccursAt(text, u, from + k)
  {
    var sub := text[from..to];
    assert forall x :: 0 <= x < |u| ==> u[x] == sub[k + x] == text[from + k + x];
  }

  /** Replacing one secret creates no occurrence of another, if that one shares nothing with the token. */
  lemma {:induction false} ReplaceCreatesNothing(text: string, s: string, u: string)
    requires 0 < |s| && 0 < |u| && TokenFree(u) && !Occurs(text, u)
    ensures !Occurs(Replace(text, s), u)
    decreases |text|
  {
    var i := Find(text, s, 0);
    if i < |text| {
      var rest := text[i + |s|..];
      if Occurs(rest, u) {
        var k: nat :| k <= |rest| && OccursAt(rest, u, k);
        assert rest == text[i + |s|..|text|];
        OccursWithin(text, u, i + |s|, |text|, k);
      }
      ReplaceCreatesNothing(rest, s, u);
      if Occurs(Replace(text, s), u) {
        var k: nat :| k <= |Replace(text, s)| && OccursAt(Replace(text, s), u, k);
        AroundToken(text[..i], Replace(rest, s), u, k);
        if OccursAt(text[..i], u, k) { OccursWithin(text, u, 0, i, k); }
      }
    }
  }

  /** A token cannot complete a self-clean secret that a left-to-right search has passed over. */
  lemma NoFreshEnding(text: string, s: string, i: nat, k: nat)
    requires SelfClean(s) && OccursAt(text, s, i) && (forall j: nat | j < i :: !OccursAt(text, s, j))
    requires k < i < k + |s| && EndsInToken(s, k + |s| - i)
    ensures s[..i - k] != text[k..i]
  {
    if s[..i - k] == text[k..i] {
      var n := k + |s| - i;
      assert text[k..i + |s|] == text[k..i] + text[i..i + |s|] == Stutter(s, n);
      var j: nat :| j < |s| - n && OccursAt(Stutter(s, n), s, j);
      OccursWithin(text, s, k, i + |s|, j);
    }
  }

  lemma NotAt(text: string, s: string, i: nat, after: string, k: nat)
    requires 0 < |s| && SelfClean(s) && OccursAt(text, s, i) && (forall j: nat | j < i :: !OccursAt(text, s, j))
    requires !Occurs(after, s)
    ensures !OccursAt(text[..i] + TOKEN + after, s, k)
  {
    hide RepeatsEarly, StartsInToken, EndsInToken;
    if OccursAt(text[..i] + TOKEN + after, s, k) {
      AroundToken(text[..i], after, s, k);
      if OccursAt(text[..i], s, k) {
        OccursWithin(text, s, 0, i, k);
      } else if k < i {
        assert text[..i][k..] == text[k..i];
        NoFreshEnding(text, s, i, k);
      }
    }
  }

  /** Replacing a self-clean secret removes it. */
  lemma {:induction false} ReplaceRemoves(text: string, s: string)
    requires 0 < |s| && SelfClean(s)
    ensures !Occurs(Replace(text, s), s)
    decreases |text|
  {
    hide SelfClean, Replace;
    var i := Find(text, s, 0);
    if i < |text| {
      var rest := text[i + |s|..];
      ReplaceRemoves(rest, s);
      FirstOccurrence(text, s, i);
      forall k: nat ensures !OccursAt(text[..i] + TOKEN + Replace(rest, s), s, k) { NotAt(text, s, i, Replace(rest, s), k); }
    } else {
      NoneIsKept(text, s);
    }
  }

  lemma NoneIsKept(text: string, s: string)
    requires 0 < |s| && Find(text, s, 0) >= |text|
    ensures Replace(text, s) == text && !Occurs(text, s)
  {
  }

  /******* Exactly when one secret is always removed *******/

  lemma FirstOccurrence(text: string, s: string, i: nat)
    requires 0 < |s| && OccursAt(text, s, i) && (forall j: nat | j < i :: !OccursAt(text, s, j))
    ensures Replace(text, s) == text[..i] + TOKEN + Replace(text[i + |s|..], s)
  {
    var f := Find(text, s, 0);
    assert f == i;
  }

  lemma AbsentSecretIsKept(text: string, s: string)
    requires 0 < |s| && !Occurs(text, s)
    ensures Replace(text, s) == text
  {
    assert Find(text, s, 0) == |text|;
  }

  lemma ShorterTextIsKept(text: string, s: string)
    requires |text| < |s|
    ensures Replace(text, s) == text
  {
  }

  lemma LeakInsideToken(s: string)
    requires 0 < |s| && Occurs(TOKEN, s)
    ensures Occurs(Replace(s, s), s)
  {
    FirstOccurrence(s, s, 0);
    assert Replace(s, s) == TOKEN;
  }

  lemma NotBeforeItsToken(s: string, i: nat, text: string, j: nat)
    requires OccursAt(s, TOKEN, i) && j < i && OccursAt(text, s, i) && OccursAt(text, s, j)
    ensures OccursAt(s, TOKEN, j)
  {
    var t := |TOKEN|;
    assert forall x :: 0 <= x < |s| ==> s[x] == text[i + x] && s[x] == text[j + x];
    assert forall x :: 0 <= x < t ==> TOKEN[x] == s[i + x] && s[i + x] == text[j + (i + x)] && s[j + x] == text[i + (j + x)];
  }

  lemma FirstInPadded(s: string, i: nat, text: string, q: string)
    requires OccursAt(s, TOKEN, i) && (forall j: nat | j < i :: !OccursAt(s, TOKEN, j))
    requires text == s[..i] + s + q
    ensures OccursAt(text, s, i) && (forall j: nat | j < i :: !OccursAt(text, s, j))
  {
    assert text[i..i + |s|] == s;
    forall j: nat | j < i ensures !OccursAt(text, s, j) {
      if OccursAt(text, s, j) { NotBeforeItsToken(s, i, text, j); }
    }
  }

  lemma LeakAroundToken(s: string, i: nat)
    requires OccursAt(s, TOKEN, i) && (forall j: nat | j < i :: !OccursAt(s, TOKEN, j))
    ensures Replace(s[..i] + s + s[i + |TOKEN|..], s) == s
  {
    var p, q := s[..i], s[i + |TOKEN|..];
    var text := p + s + q;
    FirstInPadded(s, i, text, q);
    assert s == p + TOKEN + q;
    assert text[i + |s|..] == q && text[..i] == p;
    FirstOccurrence(text, s, i);
    ShorterTextIsKept(q, s);
    hide Replace, OccursAt;
  }

  lemma LeakAfterToken(s: string, k: nat)
    requires StartsInToken(s, k)
    ensures Occurs(Replace(s + s[k..], s), s)
  {
    var text := s + s[k..];
    assert text[0..|s|] == s;
    FirstOccurrence(text, s, 0);
    assert text[|s|..] == s[k..];
    ShorterTextIsKept(s[k..], s);
    var r := Replace(text, s);
    assert r == TOKEN + s[k..];
    assert r[|TOKEN| - k..|TOKEN| - k + |s|] == TOKEN[|TOKEN| - k..] + s[k..] == s;
    assert OccursAt(r, s, |TOKEN| - k);
  }

  lemma LeakBeforeToken(s: string, k: nat)
    requires EndsInToken(s, k) && !RepeatsEarly(s, k)
    ensures Occurs(Replace(Stutter(s, k), s), s)
  {
    var p := s[..|s| - k];
    var text := Stutter(s, k);
    assert text[|p|..|p| + |s|] == s;
    FirstOccurrence(text, s, |p|);
    hide Find, RepeatsEarly;
    assert text[|p| + |s|..] == "" && text[..|p|] == p;
    ShorterTextIsKept("", s);
    var r := Replace(text, s);
    assert r == p + TOKEN;
    assert r[0..|s|] == p + TOKEN[..k] == s;
    assert OccursAt(r, s, 0);
  }

  /** For a secret that is not self-clean, a text that still shows it after its replacement. */
  lemma Leak(s: string) returns (text: string)
    requires 0 < |s| && !SelfClean(s)
    ensures Occurs(Replace(text, s), s)
  {
    hide Replace, RepeatsEarly, Find;
    if Occurs(TOKEN, s) {
      LeakInsideToken(s);
      text := s;
    } else if Occurs(s, TOKEN) {
      var i := Find(s, TOKEN, 0);
      LeakAroundToken(s, i);
      text := s[..i] + s + s[i + |TOKEN|..];
      assert OccursAt(s, s, 0);
    } else if k: nat :| k <= |s| && StartsInToken(s, k) {
      hide Occurs, OccursAt;
      LeakAfterToken(s, k);
      text := s + s[k..];
    } else {
      hide Occurs, OccursAt;
      var k: nat :| k <= |s| && EndsInToken(s, k) && !RepeatsEarly(s, k);
      LeakBeforeToken(s, k);
      text := Stutter(s, k);
    }
  }

  /** Replacing one secret removes it from every text if and only if the secret is self-clean. */
  lemma ReplaceAlwaysRemovesIffSelfClean(s: string)
    requires 0 < |s|
    ensures SelfClean(s) <==> forall text: string :: !Occurs(Replace(text, s), s)
  {
    if SelfClean(s) {
      forall text: string ensures !Occurs(Replace(text, s), s) { ReplaceRemoves(text, s); }
    } else {
      var text := Leak(s);
    }
  }

  /******* The whole stage *******/

  ghost predicate CleanOf(text: string, secrets: seq<string>) {
    forall s :: s in secrets && |s| >= MIN_SECRET ==> !Occurs(text, s)
  }

  lemma {:induction false} RedactAllCreatesNothing(text: string, order: seq<string>, u: string)
    requires forall s | s in order :: 0 < |s|
    requires 0 < |u| && TokenFree(u) && !Occurs(text, u)
    ensures !Occurs(RedactAll(text, order), u)
    decreases |order|
  {
    hide Replace, TokenFree, Occurs;
    if order != [] {
      ReplaceCreatesNothing(text, order[0], u);
      RedactAllCreatesNothing(Replace(text, order[0]), order[1..], u);
    }
  }

  lemma TokenFreeIsSelfClean(s: string)
    requires TokenFree(s)
    ensures SelfClean(s)
  {
  }

  /** A processed secret is gone for good, whatever is processed before and after it. */
  lemma {:induction false} RedactAllRemoves(text: string, order: seq<string>, u: string)
    requires forall s | s in order :: 0 < |s|
    requires u in order && TokenFree(u)
    ensures !Occurs(RedactAll(text, order), u)
    decreases |order|
  {
    var next := Replace(text, order[0]);
    if u == order[0] {
      TokenFreeIsSelfClean(u);
      ReplaceRemoves(text, u);
      hide Replace, TokenFree, Occurs;
      RedactAllCreatesNothing(next, order[1..], u);
    } else {
      hide Replace, TokenFree, Occurs;
      RedactAllRemoves(next, order[1..], u);
    }
  }

  /** Nine opening brackets: a token can end what eight of them begin, but a search for all nine stops earlier. */
  function Brackets(n: nat): string {
    seq(n, _ => '[')
  }

  lemma BracketsAreSelfClean()
    ensures SelfClean(Brackets(9)) && !TokenFree(Brackets(9))
  {
    var u := Brackets(9);
    assert TOKEN[0] == '[' && TOKEN[1] == 'R' && TOKEN[2] == 'E' && TOKEN[9] == ']';
    forall i: nat | i <= |TOKEN| ensures !OccursAt(TOKEN, u, i) {
      if i + 9 <= |TOKEN| { assert TOKEN[i..i + 9][1] == TOKEN[i + 1]; }
    }
    forall k: nat | k <= |u| ensures !StartsInToken(u, k) {
      if 0 < k { assert TOKEN[|TOKEN| - k..][k - 1] == ']'; }
    }
    forall k: nat | 2 <= k <= |u| ensures !EndsInToken(u, k) {
      assert TOKEN[..k][1] == 'R' && u[|u| - k..][1] == '[';
    }
    assert Stutter(u, 1)[0..9] == u;
    assert OccursAt(Stutter(u, 1), u, 0);
    assert u[|u| - 1..] == TOKEN[..1];
    assert EndsInToken(u, 1);
  }

  lemma OccursChar(text: string, s: string, i: nat, k: nat)
    requires OccursAt(text, s, i) && k < |s|
    ensures text[i + k] == s[k]
  {
    assert text[i..i + |s|][k] == text[i + k];
  }

  lemma NoNineBrackets(s: string)
    requires 0 < |s| && '[' !in s
    ensures !Occurs(Brackets(8) + s, Brackets(9))
  {
    var text, u := Brackets(8) + s, Brackets(9);
    assert text[8] == s[0];
    forall i: nat | i <= |text| && OccursAt(text, u, i) ensures false {
      OccursChar(text, u, i, if i <= 8 then 8 - i else 0);
    }
  }

  lemma NotInBrackets(s: string, j: nat)
    requires 0 < |s| && '[' !in s && j < 8
    ensures !OccursAt(Brackets(8) + s, s, j)
  {
    if OccursAt(Brackets(8) + s, s, j) { OccursChar(Brackets(8) + s, s, j, 0); }
  }

  /** Eight brackets and a plain secret: only the secret is replaced, and the token completes the nine brackets. */
  lemma TokenCompletesBrackets(s: string)
    requires 0 < |s| && '[' !in s
    ensures Replace(Brackets(8) + s, s) == Brackets(8) + TOKEN && Occurs(Brackets(8) + TOKEN, Brackets(9))
  {
    var text := Brackets(8) + s;
    forall j: nat | j < 8 ensures !OccursAt(text, s, j) { NotInBrackets(s, j); }
    assert text[8..8 + |s|] == s && text[8 + |s|..] == "" && text[..8] == Brackets(8);
    assert OccursAt(text, s, 8);
    hide OccursAt, Find;
    FirstOccurrence(text, s, 8);
    ShorterTextIsKept("", s);
    hide Replace;
    assert Brackets(8) + TOKEN + "" == Brackets(8) + TOKEN;
    NineBrackets();
  }

  lemma NineBrackets()
    ensures Occurs(Brackets(8) + TOKEN, Brackets(9))
  {
    var result := Brackets(8) + TOKEN;
    assert TOKEN[0] == '[' && result[0..9] == Brackets(9);
    assert OccursAt(result, Brackets(9), 0);
  }

  lemma RedactTwo(text: string, s: string, t: string)
    requires 0 < |s| && 0 < |t|
    ensures RedactAll(text, [s, t]) == Replace(Replace(text, s), t)
  {
    hide Replace;
    assert [s, t][1..] == [t] && [t][1..] == [];
    assert RedactAll(Replace(text, s), [t]) == RedactAll(Replace(Replace(text, s), t), []);
  }

  /**
   For two secrets it is not enough that each alone is always removed: the token of one can
   complete the other after that one has been processed.
   */
  lemma SelfCleanIsNotEnoughForTwo(s: string)
    requires |s| == MIN_SECRET && '[' !in s && ']' !in s && s != "REDACTED"
    ensures SelfClean(Brackets(9)) && SelfClean(s) && ProcessingOrder([Brackets(9), s], [Brackets(9), s])
    ensures Occurs(RedactAll(Brackets(8) + s, [Brackets(9), s]), Brackets(9))
  {
    hide SelfClean, TokenFree, Replace, Occurs, RedactAll;
    BracketsAreSelfClean();
    PlainSecretsAreTokenFree(s);
    TokenFreeIsSelfClean(s);
    NoNineBrackets(s);
    AbsentSecretIsKept(Brackets(8) + s, Brackets(9));
    TokenCompletesBrackets(s);
    RedactTwo(Brackets(8) + s, Brackets(9), s);
  }

  /** Secrets without brackets, other than the word inside the token, share nothing with the token. */
  lemma PlainSecretsAreTokenFree(s: string)
    requires |s| >= MIN_SECRET
    ensures TokenFree(s) || '[' in s || ']' in s || s == "REDACTED"
  {
    if Occurs(s, TOKEN) {
      var i: nat :| i <= |s| && OccursAt(s, TOKEN, i);
      assert s[i] == s[i..i + |TOKEN|][0] == '[';
    } else if Occurs(TOKEN, s) {
      var i: nat :| i <= |TOKEN| && OccursAt(TOKEN, s, i);
      if i == 0 {
        assert s[0] == TOKEN[i..i + |s|][0] == '[';
      } else if i + |s| == |TOKEN| {
        assert s[|s| - 1] == TOKEN[i..i + |s|][|s| - 1] == ']';
      } else {
        assert TOKEN[1..9] == "REDACTED";
      }
    } else if k: nat :| k <= |s| && EndsInToken(s, k) {
      assert s[|s| - k] == s[|s| - k..][0] == TOKEN[..k][0] == '[';
    } else if k: nat :| k <= |s| && StartsInToken(s, k) {
      assert s[k - 1] == s[..k][k - 1] == TOKEN[|TOKEN| - k..][k - 1] == ']';
    }
  }

  /** Text without any secret passes through untouched, so redacting twice is redacting once. */
  lemma {:induction false} CleanTextIsKept(text: string, order: seq<string>)
    requires forall s | s in order :: 0 < |s| && !Occurs(text, s)
    ensures RedactAll(text, order) == text
    decreases |order|
  {
    if order != [] {
      AbsentSecretIsKept(text, order[0]);
      hide Replace, Occurs;
      CleanTextIsKept(text, order[1..]);
    }
  }

  /**
   Longest first means that a secret standing alone becomes exactly one token: no shorter
   secret inside it is cut out first, and nothing of it is left over.
   */
  lemma {:induction false} AloneSecretBecomesToken(order: seq<string>, u: string)
    requires u in order && (forall s | s in order :: 0 < |s| && TokenFree(s))
    requires forall i, j | 0 <= i < j < |order| :: order[i] != order[j] && |order[i]| >= |order[j]|
    ensures RedactAll(u, order) == TOKEN
    decreases |order|
  {
    var s := order[0];
    if s == u {
      FirstOccurrence(u, u, 0);
      ShorterTextIsKept("", u);
      assert Replace(u, u) == TOKEN;
      CleanTextIsKept(TOKEN, order[1..]);
    } else {
      var n: nat :| n < |order| && order[n] == u;
      assert |s| >= |u|;
      AbsentSecretIsKept(u, s);
      AloneSecretBecomesToken(order[1..], u);
    }
  }

  /** The opposite order leaves the rest of the longer secret in clear. */
  lemma ShortestFirstLeavesTheRest(u: string, rest: string)
    requires 0 < |rest| < |u| && TokenFree(u + rest)
    ensures RedactAll(u + rest, [u, u + rest]) == TOKEN + rest
  {
    var s, half := u + rest, TOKEN + rest;
    ReplaceAtStart(u, rest);
    TokenThenRest(s, rest);
    AbsentSecretIsKept(half, s);
    hide Find, TokenFree, Occurs, Replace;
    assert [u, s][1..] == [s];
    assert RedactAll(half, [s]) == half;
  }

  lemma ReplaceAtStart(u: string, rest: string)
    requires 0 < |u| && |rest| < |u|
    ensures Replace(u + rest, u) == TOKEN + rest
  {
    var s := u + rest;
    assert s[0..|u|] == u && s[|u|..] == rest && s[..0] + TOKEN == TOKEN;
    FirstOccurrence(s, u, 0);
    ShorterTextIsKept(rest, u);
  }

  lemma TokenThenRest(s: string, rest: string)
    requires |rest| < |s| && TokenFree(s)
    ensures !Occurs(TOKEN + rest, s)
  {
    if Occurs(TOKEN + rest, s) {
      var k: nat :| k <= |TOKEN + rest| && OccursAt(TOKEN + rest, s, k);
      assert "" + TOKEN + rest == TOKEN + rest;
      AroundToken("", rest, s, k);
    }
  }

  /** The loop of the executor: after it, no secret of eight or more characters is left. */
  method Redact(value: string, secrets: seq<string>, order: seq<string>) returns (result: string)
    requires ProcessingOrder(secrets, order)
    ensures result == RedactAll(value, order)
    ensures (forall s | s in order :: TokenFree(s)) ==> CleanOf(result, secrets)
    ensures CleanOf(value, secrets) ==> result == value
  {
    result := value;
    for i := 0 to |order|
      invariant RedactAll(result, order[i..]) == RedactAll(value, order)
    {
      result := Replace(result, order[i]);
      assert order[i..][1..] == order[i + 1..];
    }
    forall s | s in order && TokenFree(s) ensures !Occurs(result, s) { RedactAllRemoves(value, order, s); }
    if CleanOf(value, secrets) { CleanTextIsKept(value, order); }
  }
}
