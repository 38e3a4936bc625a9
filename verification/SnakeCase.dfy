// Which JSON keys count as sensitive, and the scanner that turns a camelCase key into the
// snake_case form the sensitive names are written in.
module SnakeCase {

  predicate IsUpper(c: char) { 'A' <= c <= 'Z' }

  predicate IsLower(c: char) { 'a' <= c <= 'z' }

  predicate IsDigit(c: char) { '0' <= c <= '9' }

  function Lower(c: char): (r: char)
    ensures r == '_' <==> c == '_'
    ensures !IsUpper(r)
  {
    if IsUpper(c) then (c as int + 32) as char else c
  }

  function Upper(c: char): (r: char)
    ensures IsLower(c) ==> IsUpper(r) && Lower(r) == c
  {
    if IsLower(c) then (c as int - 32) as char else c
  }

  function ToLower(s: string): (r: string)
    ensures |r| == |s| && forall i | 0 <= i < |s| :: r[i] == Lower(s[i])
  {
    seq(|s|, i requires 0 <= i < |s| => Lower(s[i]))
  }

  // ---------------------------------------------------------------- the scanner

  /** The local rule: a capital opens a word unless it starts the key, follows an underscore, or
      continues a run of capitals whose next character is not a lowercase letter. */
  predicate BreakBefore(key: string, i: nat)
    requires i < |key|
  {
    && IsUpper(key[i]) && i > 0 && key[i - 1] != '_'
    && (!IsUpper(key[i - 1]) || (i + 1 < |key| && IsLower(key[i + 1])))
  }

  function Piece(key: string, i: nat): string
    requires i < |key|
  {
    (if BreakBefore(key, i) then "_" else "") + [Lower(key[i])]
  }

  function SnakeTo(key: string, n: nat): (r: string)
    requires n <= |key|
    ensures |r| >= n
    ensures n > 0 ==> r[|r| - 1] == Lower(key[n - 1])
  {
    if n == 0 then "" else SnakeTo(key, n - 1) + Piece(key, n - 1)
  }

  function Snake(key: string): string {
    SnakeTo(key, |key|)
  }

  /** The scanner keeps only the text written so far and still follows the local rule. */
  method SnakeCaseKey(key: string) returns (out: string)
    ensures out == Snake(key)
  {
    out := "";
    for i := 0 to |key|
      invariant out == SnakeTo(key, i)
    {
      var r := key[i];
      var isUpper := 'A' <= r <= 'Z';
      if isUpper && i > 0 {
        var prevLower := key[i - 1] < 'A' || key[i - 1] > 'Z';
        var nextLower := i + 1 < |key| && 'a' <= key[i + 1] <= 'z';
        if (prevLower || nextLower) && |out| > 0 && out[|out| - 1] != '_' {
          out := out + "_";
        }
      }
      if isUpper {
        out := out + [(r as int - 'A' as int + 'a' as int) as char];
        continue;
      }
      out := out + [r];
    }
  }

  // ---------------------------------------------------------------- what it does to any key

  /** How many underscores are inserted before position n. */
  function Breaks(key: string, n: nat): nat
    requires n <= |key|
  {
    if n == 0 then 0 else Breaks(key, n - 1) + if BreakBefore(key, n - 1) then 1 else 0
  }

  /** Where the character at position i of the key ends up. */
  function Place(key: string, i: nat): nat
    requires i < |key|
  {
    i + Breaks(key, i + 1)
  }

  lemma {:induction false} SnakeLayout(key: string, n: nat)
    requires n <= |key|
    ensures |SnakeTo(key, n)| == n + Breaks(key, n)
    ensures forall i | 0 <= i < n ::
        Place(key, i) < |SnakeTo(key, n)| && SnakeTo(key, n)[Place(key, i)] == Lower(key[i])
    ensures forall i | 0 <= i < n && BreakBefore(key, i) :: SnakeTo(key, n)[Place(key, i) - 1] == '_'
  {
    hide BreakBefore, Lower;
    if n == 0 {
    } else {
      SnakeLayout(key, n - 1);
      assert SnakeTo(key, n) == SnakeTo(key, n - 1) + Piece(key, n - 1);
    }
  }

  lemma {:induction false} PlacesInOrder(key: string, i: nat, j: nat)
    requires i < j < |key|
    ensures Place(key, i) < Place(key, j)
    decreases j
  {
    if i < j - 1 {
      PlacesInOrder(key, i, j - 1);
    }
  }

  /** Every character of the result is either a character of the key, lowercased and in order,
      or an underscore inserted just before a former capital: never first, never next to
      another underscore. */
  lemma ScannerOnlyInserts(key: string)
    ensures var out := Snake(key);
      && |out| == |key| + Breaks(key, |key|)
      && (forall i | 0 <= i < |key| :: Place(key, i) < |out| && out[Place(key, i)] == Lower(key[i]))
      && (forall i, j | 0 <= i < j < |key| :: Place(key, i) < Place(key, j))
      && (forall i | 0 <= i < |key| && BreakBefore(key, i) ::
            var p := Place(key, i);
            p >= 2 && IsUpper(key[i]) && out[p - 1] == '_' && out[p] != '_' &&
            p - 2 == Place(key, i - 1) && out[p - 2] != '_')
  {
    SnakeLayout(key, |key|);
    forall i, j | 0 <= i < j < |key| ensures Place(key, i) < Place(key, j) {
      PlacesInOrder(key, i, j);
    }
  }

  /** Where the underscores go, and what becomes of the other characters: two neighbours of the key end
      up with an underscore between them exactly when the second is a capital that follows neither an
      underscore nor, unless a small letter comes next, another capital. */
  lemma InsertedExactly(key: string, i: nat)
    requires i < |key|
    ensures Place(key, i) < |Snake(key)|
    ensures Snake(key)[Place(key, i)] == if 'A' <= key[i] <= 'Z' then (key[i] as int + 32) as char else key[i]
    ensures i == 0 ==> Place(key, i) == 0
    ensures i > 0 ==>
      Place(key, i) - Place(key, i - 1) ==
      if && 'A' <= key[i] <= 'Z' && key[i - 1] != '_'
         && (!('A' <= key[i - 1] <= 'Z') || (i + 1 < |key| && 'a' <= key[i + 1] <= 'z')) then 2 else 1
  {
    SnakeLayout(key, |key|);
    if i == 0 {
      assert Breaks(key, 1) == Breaks(key, 0) == 0;
    }
  }

  lemma {:induction false} NoCapitalsTo(key: string, n: nat)
    requires n <= |key| && forall i | 0 <= i < |key| :: !IsUpper(key[i])
    ensures SnakeTo(key, n) == key[..n]
  {
    if n == 0 {
    } else {
      NoCapitalsTo(key, n - 1);
    }
  }

  lemma NoCapitalsUnchanged(key: string)
    requires forall i | 0 <= i < |key| :: !IsUpper(key[i])
    ensures Snake(key) == key == ToLower(key)
  {
    NoCapitalsTo(key, |key|);
  }

  // ---------------------------------------------------------------- camelCase round trip

  predicate IsWord(w: string) {
    |w| > 0 && IsLower(w[0]) && forall i | 0 <= i < |w| :: IsLower(w[i]) || IsDigit(w[i])
  }

  function Capitalized(w: string): string
    requires IsWord(w)
  {
    [Upper(w[0])] + w[1..]
  }

  predicate AreWords(ws: seq<string>) {
    forall w | w in ws :: IsWord(w)
  }

  /** The words run together, each with a capital: recovery, codes -> RecoveryCodes. */
  function Camel(ws: seq<string>): string
    requires AreWords(ws)
  {
    if ws == [] then "" else Camel(ws[..|ws| - 1]) + Capitalized(ws[|ws| - 1])
  }

  /** The words joined by underscores: recovery, codes -> recovery_codes. */
  function Underscored(ws: seq<string>): string {
    if ws == [] then ""
    else if |ws| == 1 then ws[0]
    else Underscored(ws[..|ws| - 1]) + "_" + ws[|ws| - 1]
  }

  /** The scanner can see where w starts after prev. */
  predicate Visible(prev: string, w: string) {
    |prev| >= 2 || (|w| >= 2 && IsLower(w[1]))
  }

  predicate AllVisible(ws: seq<string>) {
    forall i | 0 < i < |ws| :: Visible(ws[i - 1], ws[i])
  }

  lemma {:induction false} SnakeStable(a: string, b: string, n: nat)
    requires n <= |a| && b != "" && !IsLower(b[0])
    ensures SnakeTo(a + b, n) == SnakeTo(a, n)
  {
    if n == 0 {
    } else {
      SnakeStable(a, b, n - 1);
    }
  }

  lemma {:induction false} LowercaseTail(a: string, w: string, n: nat)
    requires IsWord(w) && 1 <= n <= |w|
    ensures var key := a + Capitalized(w);
      SnakeTo(key, |a| + n) == SnakeTo(key, |a|) + (if BreakBefore(key, |a|) then "_" else "") + w[..n]
  {
    var key := a + Capitalized(w);
    if n == 1 {
      assert key[|a|] == Upper(w[0]);
    } else {
      LowercaseTail(a, w, n - 1);
      assert key[|a| + n - 1] == w[n - 1];
      assert w[..n] == w[..n - 1] + [w[n - 1]];
    }
  }

  lemma {:induction false} CamelEnds(ws: seq<string>)
    requires AreWords(ws) && ws != []
    ensures var last, key := ws[|ws| - 1], Camel(ws);
      && key != "" && key[|key| - 1] != '_'
      && (IsUpper(key[|key| - 1]) <==> |last| == 1)
  {
    var last, key := ws[|ws| - 1], Camel(ws);
    var cap := Capitalized(last);
    assert key[|key| - 1] == cap[|cap| - 1];
    if |last| > 1 {
      assert cap[|cap| - 1] == last[|last| - 1];
    }
  }

  lemma SnakeOfCapitalized(a: string, w: string)
    requires IsWord(w) && a != "" && a[|a| - 1] != '_'
    ensures Snake(a + Capitalized(w)) ==
      Snake(a) + (if !IsUpper(a[|a| - 1]) || (|w| >= 2 && IsLower(w[1])) then "_" else "") + w
  {
    var cap := Capitalized(w);
    var key := a + cap;
    SnakeStable(a, cap, |a|);
    LowercaseTail(a, w, |w|);
    assert w[..|w|] == w;
    assert key[|a| - 1] == a[|a| - 1] && key[|a|] == cap[0];
    assert |w| >= 2 ==> key[|a| + 1] == cap[1] == w[1];
  }

  /** One more word adds itself, and an underscore exactly when its start is visible. */
  lemma SnakeOfNextWord(ws: seq<string>, w: string)
    requires AreWords(ws) && IsWord(w) && ws != []
    ensures AreWords(ws + [w])
    ensures Snake(Camel(ws + [w])) == Snake(Camel(ws)) + (if Visible(ws[|ws| - 1], w) then "_" else "") + w
  {
    hide SnakeTo, Capitalized;
    var all := ws + [w];
    assert all[..|all| - 1] == ws && all[|all| - 1] == w;
    assert Camel(all) == Camel(ws) + Capitalized(w);
    CamelEnds(ws);
    SnakeOfCapitalized(Camel(ws), w);
    assert IsWord(ws[|ws| - 1]);
  }

  lemma VisibleSnoc(front: seq<string>, w: string)
    requires front != []
    ensures AllVisible(front + [w]) <==> AllVisible(front) && Visible(front[|front| - 1], w)
  {
    var ws := front + [w];
    if AllVisible(ws) {
      assert Visible(ws[|front| - 1], ws[|front|]);
      forall i | 0 < i < |front| ensures Visible(front[i - 1], front[i]) {
        assert Visible(ws[i - 1], ws[i]);
      }
    }
  }

  lemma {:induction false} RoundTripLengths(ws: seq<string>)
    requires AreWords(ws)
    ensures |Snake(Camel(ws))| <= |Underscored(ws)|
    ensures AllVisible(ws) ==> Snake(Camel(ws)) == Underscored(ws)
    ensures !AllVisible(ws) ==> |Snake(Camel(ws))| < |Underscored(ws)|
  {
    if |ws| == 1 {
      SingleWord(ws[0]);
      assert ws == [ws[0]];
    } else if |ws| > 1 {
      var front, w := ws[..|ws| - 1], ws[|ws| - 1];
      assert ws == front + [w];
      RoundTripLengths(front);
      SnakeOfNextWord(front, w);
      VisibleSnoc(front, w);
    }
  }

  lemma SingleWord(w: string)
    requires IsWord(w)
    ensures AreWords([w]) && Snake(Camel([w])) == w
  {
    assert [w][..0] == [];
    assert Camel([w]) == "" + Capitalized(w);
    LowercaseTail("", w, |w|);
    assert w[..|w|] == w;
  }

  /** Scanning the CamelCase form gives the underscored form back exactly when every word's
      start is visible; words of two or more characters always are. */
  lemma CamelRoundTrip(ws: seq<string>)
    requires AreWords(ws)
    ensures Snake(Camel(ws)) == Underscored(ws) <==> AllVisible(ws)
    ensures (forall w | w in ws :: |w| >= 2) ==> AllVisible(ws)
  {
    RoundTripLengths(ws);
  }

  /** A one-letter word before a word whose second character is a digit is swallowed. */
  lemma SwallowedBoundary()
    ensures Snake(Camel(["x", "p2"])) == "xp2" && Underscored(["x", "p2"]) == "x_p2"
  {
    var ws := ["x", "p2"];
    assert ["x"] + ["p2"] == ws && ws[..1] == ["x"];
    SingleWord("x");
    SnakeOfNextWord(["x"], "p2");
    assert Underscored(ws) == Underscored(ws[..1]) + "_" + "p2";
  }

  // ---------------------------------------------------------------- sensitive names

  const SENSITIVE_KEYS: set<string> := {
    "pin", "pin_hash", "current_pin", "new_pin", "token", "token_hash", "session_token",
    "recovery_codes", "challenge_hash", "password", "password_hash", "card_number", "cvv", "cvc",
    "expiry", "pan", "card_pan", "signature", "webhook_signature", "payment_signature",
    "x_payment_signature", "csrf_token", "refresh_token", "access_token", "client_secret",
    "private_key", "api_key", "otp", "otp_code", "mfa_code", "recovery_code"
  }

  const SENSITIVE_SUBSTRINGS: seq<string> := [
    "secret", "bcrypt", "signature", "refresh_token", "access_token", "private_key", "api_key",
    "_pin", "pin_", "mfa", "2fa"
  ]

  predicate OccursAt(s: string, sub: string, i: nat) {
    i + |sub| <= |s| && s[i..i + |sub|] == sub
  }

  predicate Contains(s: string, sub: string) {
    exists i: nat | i <= |s| :: OccursAt(s, sub, i)
  }

  /** The two rules on an already lowercased key. */
  predicate Matches(k: string) {
    k in SENSITIVE_KEYS || exists n | n in SENSITIVE_SUBSTRINGS :: Contains(k, n)
  }

  method MatchesSensitive(k: string) returns (b: bool)
    ensures b <==> Matches(k)
  {
    if k in SENSITIVE_KEYS {
      return true;
    }
    for i := 0 to |SENSITIVE_SUBSTRINGS|
      invariant forall j | 0 <= j < i :: !Contains(k, SENSITIVE_SUBSTRINGS[j])
    {
      if Contains(k, SENSITIVE_SUBSTRINGS[i]) {
        return true;
      }
    }
    return false;
  }

  /** A key is sensitive when its lowercase or its snake_case form is. */
  predicate Sensitive(key: string) {
    Matches(ToLower(key)) || Matches(Snake(key))
  }

  method IsSensitive(key: string) returns (b: bool)
    ensures b <==> Sensitive(key)
  {
    var k := ToLower(key);
    b := MatchesSensitive(k);
    if b {
      return;
    }
    var snake := SnakeCaseKey(key);
    if snake != k {
      b := MatchesSensitive(snake);
    }
  }

  /** The CamelCase form of a sensitive name is sensitive. */
  lemma CamelOfSensitive(ws: seq<string>)
    requires AreWords(ws) && AllVisible(ws) && Matches(Underscored(ws))
    ensures Sensitive(Camel(ws))
  {
    CamelRoundTrip(ws);
  }

  /** The second form never changes what a key without capitals is. */
  lemma SnakeKeysClassifiedDirectly(key: string)
    requires forall i | 0 <= i < |key| :: !IsUpper(key[i])
    ensures Sensitive(key) <==> Matches(key)
  {
    NoCapitalsUnchanged(key);
  }
}
