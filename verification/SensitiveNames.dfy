// Which contents an audit row never shows, name by name.
module SensitiveNames {
  import opened SnakeCase
  import opened Redaction

  /** A part of a key that gives it away wherever it occurs. */
  predicate Needle(s: string) {
    || s == "secret" || s == "bcrypt" || s == "signature" || s == "refresh_token" || s == "access_token"
    || s == "private_key" || s == "api_key" || s == "_pin" || s == "pin_" || s == "mfa" || s == "2fa"
  }

  /** A key that is given away by its whole name. */
  predicate SecretName(s: string) {
    || s == "pin" || s == "pin_hash" || s == "current_pin" || s == "new_pin"
    || s == "token" || s == "token_hash" || s == "session_token" || s == "csrf_token" || s == "refresh_token"
    || s == "access_token" || s == "recovery_code" || s == "recovery_codes" || s == "challenge_hash"
    || s == "password" || s == "password_hash"
    || s == "card_number" || s == "cvv" || s == "cvc" || s == "expiry" || s == "pan" || s == "card_pan"
    || s == "signature" || s == "webhook_signature" || s == "payment_signature" || s == "x_payment_signature"
    || s == "client_secret" || s == "private_key" || s == "api_key"
    || s == "otp" || s == "otp_code" || s == "mfa_code"
  }

  predicate GivenAway(s: string) {
    SecretName(s) || exists i, j :: 0 <= i <= j <= |s| && Needle(s[i..j])
  }

  /** The key in lower case, letter by letter. */
  predicate LowerOf(key: string, low: string) {
    |low| == |key| && forall i | 0 <= i < |key| ::
      low[i] == if 'A' <= key[i] <= 'Z' then (key[i] as int + 32) as char else key[i]
  }

  lemma NeedlesAreListed(s: string)
    ensures Needle(s) <==> s in SENSITIVE_SUBSTRINGS
  {
    assert SENSITIVE_SUBSTRINGS[0] == "secret" && SENSITIVE_SUBSTRINGS[1] == "bcrypt";
    assert SENSITIVE_SUBSTRINGS[2] == "signature" && SENSITIVE_SUBSTRINGS[3] == "refresh_token";
    assert SENSITIVE_SUBSTRINGS[4] == "access_token" && SENSITIVE_SUBSTRINGS[5] == "private_key";
    assert SENSITIVE_SUBSTRINGS[6] == "api_key" && SENSITIVE_SUBSTRINGS[7] == "_pin";
    assert SENSITIVE_SUBSTRINGS[8] == "pin_" && SENSITIVE_SUBSTRINGS[9] == "mfa" && SENSITIVE_SUBSTRINGS[10] == "2fa";
  }

  lemma NamesAreListed(s: string)
    ensures SecretName(s) <==> s in SENSITIVE_KEYS
  {}

  lemma MatchesExactly(s: string)
    ensures Matches(s) <==> GivenAway(s)
  {
    hide SecretName, Needle;
    NamesAreListed(s);
    forall n ensures Needle(n) <==> n in SENSITIVE_SUBSTRINGS {
      NeedlesAreListed(n);
    }
    if exists i, j :: 0 <= i <= j <= |s| && Needle(s[i..j]) {
      var i, j :| 0 <= i <= j <= |s| && Needle(s[i..j]);
      assert OccursAt(s, s[i..j], i);
      assert Contains(s, s[i..j]);
    }
    if n :| n in SENSITIVE_SUBSTRINGS && Contains(s, n) {
      var i: nat :| i <= |s| && OccursAt(s, n, i);
      assert Needle(s[i..i + |n|]);
    }
  }

  /** Whatever an object holds under a key is replaced by the placeholder exactly when the key in lower
      case, or its snake_case form, is a secret name or contains a needle; otherwise it is redacted in
      its turn. */
  lemma HiddenExactly(fields: map<string, Json>, key: string, low: string)
    requires key in fields && LowerOf(key, low)
    ensures var out := Redact(JObject(fields));
      && out.JObject? && key in out.fields
      && out.fields[key] ==
         if GivenAway(low) || GivenAway(Snake(key)) then JString("[REDACTED]") else Redact(fields[key])
  {
    assert low == ToLower(key);
    MatchesExactly(low);
    MatchesExactly(Snake(key));
    hide Matches, GivenAway;
    assert Sensitive(key) <==> GivenAway(low) || GivenAway(Snake(key));
  }

  /** A needle anywhere in a key, in upper or lower case, hides what is stored under it. */
  lemma NeedleHides(fields: map<string, Json>, key: string, a: string, needle: string, b: string)
    requires key in fields && Needle(needle) && LowerOf(key, a + needle + b)
    ensures Redact(JObject(fields)).fields[key] == JString("[REDACTED]")
  {
    var low := a + needle + b;
    assert low[|a|..|a| + |needle|] == needle;
    assert GivenAway(low);
    HiddenExactly(fields, key, low);
  }

  /** So does a needle in the underscored form of a name written in CamelCase. */
  lemma CamelNeedleHides(fields: map<string, Json>, ws: seq<string>, a: string, needle: string, b: string)
    requires AreWords(ws) && AllVisible(ws) && Camel(ws) in fields
    requires Needle(needle) && Underscored(ws) == a + needle + b
    ensures Redact(JObject(fields)).fields[Camel(ws)] == JString("[REDACTED]")
  {
    var snake := a + needle + b;
    assert snake[|a|..|a| + |needle|] == needle;
    assert GivenAway(snake);
    CamelRoundTrip(ws);
    HiddenExactly(fields, Camel(ws), ToLower(Camel(ws)));
  }

  /** And so do the secret names, in any case, or in CamelCase. */
  lemma NameHides(fields: map<string, Json>, key: string, low: string)
    requires key in fields && LowerOf(key, low) && (SecretName(low) || SecretName(Snake(key)))
    ensures Redact(JObject(fields)).fields[key] == JString("[REDACTED]")
  {
    HiddenExactly(fields, key, low);
  }
}
