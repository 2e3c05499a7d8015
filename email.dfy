// The handler's email check: a falsy argument is rejected outright, anything
// else must match the anchored pattern  ^[^\s@]+@[^\s@]+\.[^\s@]+$ .

module Email {
  import opened JsValue
  import opened JsString

  /** A character of the class `[^\s@]`. */
  predicate IsPartChar(c: char)
  {
    !IsWs(c) && c != '@'
  }

  /** A match of `[^\s@]+`. */
  predicate IsPart(s: string)
  {
    |s| > 0 && forall i | 0 <= i < |s| :: IsPartChar(s[i])
  }

  /** `[^\s@]+\.[^\s@]+` against the whole of `t`: some `.` that is neither
      the first nor the last character splits `t` into two parts. */
  predicate MatchesDomain(t: string)
  {
    exists j | 0 < j < |t| - 1 :: t[j] == '.' && IsPart(t[..j]) && IsPart(t[j + 1..])
  }

  /** The anchored pattern against the whole of `s`: some `@` splits `s` into
      a part and a domain. */
  predicate MatchesPattern(s: string)
  {
    exists i | 0 < i < |s| :: s[i] == '@' && IsPart(s[..i]) && MatchesDomain(s[i + 1..])
  }

  /** `isValidEmail(email?: string)`; `None` is `undefined`. */
  predicate IsValidEmail(email: Option<string>)
  {
    match email
    case None => false
    case Some(s) => s != "" && MatchesPattern(s)
  }

  /** The shape the pattern describes, stated on strings: local part, `@`,
      then two parts around a `.`. */
  ghost predicate EmailShape(s: string)
  {
    exists a, b, c :: IsPart(a) && IsPart(b) && IsPart(c) && s == a + "@" + b + "." + c
  }

  /** The falsy guard: undefined and the empty string are rejected. */
  lemma AbsentOrEmptyRejected()
    ensures !IsValidEmail(None)
    ensures !IsValidEmail(Some(""))
  {
  }

  lemma ShapeFromSplit(s: string, i: int, j: int)
    requires 0 < i < |s| && s[i] == '@' && IsPart(s[..i])
    requires 0 < j < |s[i + 1..]| - 1 && s[i + 1..][j] == '.'
    requires IsPart(s[i + 1..][..j]) && IsPart(s[i + 1..][j + 1..])
    ensures EmailShape(s)
  {
    var t := s[i + 1..];
    var a, b, c := s[..i], t[..j], t[j + 1..];
    assert t == b + "." + c;
    assert s == a + "@" + t;
    assert s == a + "@" + b + "." + c;
  }

  lemma SplitFromShape(a: string, b: string, c: string)
    requires IsPart(a) && IsPart(b) && IsPart(c)
    ensures MatchesPattern(a + "@" + b + "." + c)
  {
    var s := a + "@" + b + "." + c;
    var i := |a|;
    var t := b + "." + c;
    assert s == a + "@" + t;
    assert s[i] == '@' && s[..i] == a && s[i + 1..] == t;
    var j := |b|;
    assert t[j] == '.' && t[..j] == b && t[j + 1..] == c;
    assert MatchesDomain(t);
  }

  /** The pattern test accepts exactly the strings of the form a@b.c with
      every piece non-empty and free of whitespace and `@`. */
  lemma ValidEmailIffShape(s: string)
    ensures IsValidEmail(Some(s)) <==> EmailShape(s)
  {
    if IsValidEmail(Some(s)) {
      var i :| 0 < i < |s| && s[i] == '@' && IsPart(s[..i]) && MatchesDomain(s[i + 1..]);
      var t := s[i + 1..];
      var j :| 0 < j < |t| - 1 && t[j] == '.' && IsPart(t[..j]) && IsPart(t[j + 1..]);
      ShapeFromSplit(s, i, j);
    }
    if EmailShape(s) {
      var a, b, c :| IsPart(a) && IsPart(b) && IsPart(c) && s == a + "@" + b + "." + c;
      SplitFromShape(a, b, c);
    }
  }

  /** Inside a split address every character but the `@` at `i` is a part
      character or the `.` that splits the domain. */
  lemma SplitCharacter(s: string, i: int, j: int, k: int)
    requires 0 < i < |s| && s[i] == '@' && IsPart(s[..i])
    requires 0 < j < |s[i + 1..]| - 1 && s[i + 1..][j] == '.'
    requires IsPart(s[i + 1..][..j]) && IsPart(s[i + 1..][j + 1..])
    requires 0 <= k < |s|
    ensures !IsWs(s[k])
    ensures s[k] == '@' ==> k == i
  {
    var t := s[i + 1..];
    if k < i {
      assert s[k] == s[..i][k];
    } else if k > i {
      var m := k - i - 1;
      assert s[k] == t[m];
      if m < j {
        assert t[m] == t[..j][m];
      } else if m > j {
        assert t[m] == t[j + 1..][m - j - 1];
      }
    }
  }

  /** What a valid address looks like character by character: no whitespace
      anywhere, exactly one `@`, and after it a `.` that is neither the first
      nor the last character of the domain. */
  lemma ValidEmailFacts(s: string)
    requires IsValidEmail(Some(s))
    ensures forall k | 0 <= k < |s| :: !IsWs(s[k])
    ensures exists i | 0 < i < |s| :: s[i] == '@' &&
              (forall k | 0 <= k < |s| && s[k] == '@' :: k == i) &&
              (exists j | i + 1 < j < |s| - 1 :: s[j] == '.')
  {
    var i :| 0 < i < |s| && s[i] == '@' && IsPart(s[..i]) && MatchesDomain(s[i + 1..]);
    var t := s[i + 1..];
    var j :| 0 < j < |t| - 1 && t[j] == '.' && IsPart(t[..j]) && IsPart(t[j + 1..]);
    forall k | 0 <= k < |s|
      ensures !IsWs(s[k]) && (s[k] == '@' ==> k == i)
    {
      SplitCharacter(s, i, j, k);
    }
    assert s[i + 1 + j] == '.';
  }

  /** The address is not trimmed: surrounding whitespace makes it invalid. */
  lemma PaddedEmailRejected(s: string, w: char)
    requires IsWs(w)
    ensures !IsValidEmail(Some([w] + s))
    ensures !IsValidEmail(Some(s + [w]))
  {
    assert ([w] + s)[0] == w;
    assert (s + [w])[|s|] == w;
    if IsValidEmail(Some([w] + s)) {
      ValidEmailFacts([w] + s);
    }
    if IsValidEmail(Some(s + [w])) {
      ValidEmailFacts(s + [w]);
    }
  }

  /** An accepted address. */
  lemma AcceptedExample()
    ensures IsValidEmail(Some("a@b.co"))
  {
    SplitFromShape("a", "b", "co");
    assert "a" + "@" + "b" + "." + "co" == "a@b.co";
  }

  /** Examples of rejected addresses: no dot after the `@`, a dot right
      after the `@`, a second `@`. */
  lemma RejectedExamples()
    ensures !IsValidEmail(Some("a@b"))
    ensures !IsValidEmail(Some("a@.co"))
    ensures !IsValidEmail(Some("a@b@c.co"))
  {
    if IsValidEmail(Some("a@b")) {
      ValidEmailFacts("a@b");
    }
    if IsValidEmail(Some("a@.co")) {
      ValidEmailFacts("a@.co");
    }
    assert "a@b@c.co"[1] == '@' && "a@b@c.co"[3] == '@';
    if IsValidEmail(Some("a@b@c.co")) {
      ValidEmailFacts("a@b@c.co");
    }
  }
}
