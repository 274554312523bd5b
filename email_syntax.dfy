/**
 * The language of MailUser's EMAIL_PATTERN, matched against the whole
 * string: a local part (dot-atom or quoted string), '@', and a domain (host
 * name or bracketed domain literal).  The pattern is case-sensitive: only
 * lower-case letters are accepted outside quotes and literals.
 */
module EmailSyntax {
  import opened Java

  predicate IsLowerAlnum(c: char)
  {
    'a' <= c <= 'z' || '0' <= c <= '9'
  }

  predicate IsDigit(c: char)
  {
    '0' <= c <= '9'
  }

  // ---- local part ----

  /** [a-z0-9!#$%&'*+/=?^_`{|}~-] */
  predicate IsAText(c: char)
  {
    IsLowerAlnum(c) || c in "!#$%&'*+/=?^_`{|}~-"
  }

  /** One or more atext characters. */
  predicate IsAtom(s: string)
  {
    |s| > 0 && forall i | 0 <= i < |s| :: IsAText(s[i])
  }

  /** atom ( '.' atom )* */
  predicate IsDotAtom(s: string)
    decreases |s|
  {
    IsAtom(s) || exists i | 0 < i < |s| :: s[i] == '.' && IsAtom(s[..i]) && IsDotAtom(s[i + 1..])
  }

  /** [\x01-\x08\x0b\x0c\x0e-\x1f\x21\x23-\x5b\x5d-\x7f]: printable ASCII except space, '"' and '\', and most controls. */
  predicate IsQText(c: char)
  {
    var n := c as int;
    (0x01 <= n <= 0x08) || n == 0x0B || n == 0x0C || (0x0E <= n <= 0x1F)
    || n == 0x21 || (0x23 <= n <= 0x5B) || (0x5D <= n <= 0x7F)
  }

  /** The character after a backslash: [\x01-\x09\x0b\x0c\x0e-\x7f]. */
  predicate IsQuotedPairChar(c: char)
  {
    var n := c as int;
    (0x01 <= n <= 0x09) || n == 0x0B || n == 0x0C || (0x0E <= n <= 0x7F)
  }

  /** Zero or more qtext characters or backslash pairs. */
  predicate IsQuotedContent(s: string)
    decreases |s|
  {
    |s| == 0
    || (IsQText(s[0]) && IsQuotedContent(s[1..]))
    || (|s| >= 2 && s[0] == '\\' && IsQuotedPairChar(s[1]) && IsQuotedContent(s[2..]))
  }

  predicate IsQuotedString(s: string)
  {
    |s| >= 2 && s[0] == '"' && s[|s| - 1] == '"' && IsQuotedContent(s[1..|s| - 1])
  }

  predicate IsLocalPart(s: string)
  {
    IsDotAtom(s) || IsQuotedString(s)
  }

  // ---- domain ----

  /** [a-z0-9]([a-z0-9-]*[a-z0-9])? */
  predicate IsLabel(s: string)
  {
    |s| > 0 && IsLowerAlnum(s[0]) && IsLowerAlnum(s[|s| - 1])
    && forall i | 0 <= i < |s| :: IsLowerAlnum(s[i]) || s[i] == '-'
  }

  /** ( label '.' )+ label: at least two labels. */
  predicate IsHostName(s: string)
    decreases |s|
  {
    exists i | 0 < i < |s| :: s[i] == '.' && IsLabel(s[..i]) && (IsLabel(s[i + 1..]) || IsHostName(s[i + 1..]))
  }

  /** 25[0-5] | 2[0-4][0-9] | [01]?[0-9][0-9]? */
  predicate IsOctet(s: string)
  {
    (|s| == 1 && IsDigit(s[0]))
    || (|s| == 2 && IsDigit(s[0]) && IsDigit(s[1]))
    || (|s| == 3 && (s[0] == '0' || s[0] == '1') && IsDigit(s[1]) && IsDigit(s[2]))
    || (|s| == 3 && s[0] == '2' && '0' <= s[1] <= '4' && IsDigit(s[2]))
    || (|s| == 3 && s[0] == '2' && s[1] == '5' && '0' <= s[2] <= '5')
  }

  /** [\x01-\x08\x0b\x0c\x0e-\x1f\x21-\x5a\x53-\x7f]: the two ranges overlap, so every printable character but space. */
  predicate IsLiteralText(c: char)
  {
    var n := c as int;
    (0x01 <= n <= 0x08) || n == 0x0B || n == 0x0C || (0x0E <= n <= 0x1F) || (0x21 <= n <= 0x7F)
  }

  /** One or more literal-text characters or backslash pairs. */
  predicate IsLiteralContent(s: string)
    decreases |s|
  {
    (|s| >= 1 && IsLiteralText(s[0]) && (|s| == 1 || IsLiteralContent(s[1..])))
    || (|s| >= 2 && s[0] == '\\' && IsQuotedPairChar(s[1]) && (|s| == 2 || IsLiteralContent(s[2..])))
  }

  /** [a-z0-9-]*[a-z0-9] */
  predicate IsTag(s: string)
  {
    |s| > 0 && IsLowerAlnum(s[|s| - 1]) && forall i | 0 <= i < |s| :: IsLowerAlnum(s[i]) || s[i] == '-'
  }

  /** The part after three dotted octets: a fourth octet, or tag ':' content. */
  predicate IsLiteralTail(s: string)
  {
    IsOctet(s) || exists i | 0 < i < |s| - 1 :: s[i] == ':' && IsTag(s[..i]) && IsLiteralContent(s[i + 1..])
  }

  predicate IsOctetsThenTail(s: string, count: nat)
    decreases count
  {
    if count == 0 then IsLiteralTail(s)
    else exists i | 0 < i < |s| :: s[i] == '.' && IsOctet(s[..i]) && IsOctetsThenTail(s[i + 1..], count - 1)
  }

  /** '[' (octet '.'){3} tail ']' */
  predicate IsDomainLiteral(s: string)
  {
    |s| >= 2 && s[0] == '[' && s[|s| - 1] == ']' && IsOctetsThenTail(s[1..|s| - 1], 3)
  }

  predicate IsDomain(s: string)
  {
    IsHostName(s) || IsDomainLiteral(s)
  }

  /** EMAIL_PATTERN.matcher(s).matches() */
  predicate MatchesEmailPattern(s: string)
  {
    exists i | 0 < i < |s| - 1 :: s[i] == '@' && IsLocalPart(s[..i]) && IsDomain(s[i + 1..])
  }

  // ---- an independent description of dot-atoms ----

  /** Non-empty, atext and dots only, no dot first or last, no two dots in a row. */
  predicate DotAtomShape(s: string)
  {
    && |s| > 0 && s[0] != '.' && s[|s| - 1] != '.'
    && (forall i | 0 <= i < |s| :: IsAText(s[i]) || s[i] == '.')
    && (forall i | 0 <= i < |s| - 1 :: s[i] == '.' ==> s[i + 1] != '.')
  }

  /** The first index holding c, or |s|. */
  function FirstIndexOf(s: string, c: char): (k: nat)
    ensures k <= |s|
    ensures k < |s| ==> s[k] == c
    ensures forall i | 0 <= i < k :: s[i] != c
  {
    if |s| == 0 then 0 else if s[0] == c then 0 else 1 + FirstIndexOf(s[1..], c)
  }

  /** Every dot-atom of the grammar has DotAtomShape. */
  lemma {:induction false} DotAtomHasShape(s: string)
    requires IsDotAtom(s)
    ensures DotAtomShape(s)
    decreases |s|
  {
    if !IsAtom(s) {
      var i :| 0 < i < |s| && s[i] == '.' && IsAtom(s[..i]) && IsDotAtom(s[i + 1..]);
      var head, rest := s[..i], s[i + 1..];
      DotAtomHasShape(rest);
      assert s[0] == head[0] && s[|s| - 1] == rest[|rest| - 1];
      assert forall j | 0 <= j < i :: s[j] == head[j];
      assert forall j | i < j < |s| :: s[j] == rest[j - i - 1];
      assert forall j | 0 <= j < |s| :: IsAText(s[j]) || s[j] == '.';
      assert s[i + 1] == rest[0];
    }
  }

  /** Every string of DotAtomShape is a dot-atom of the grammar: split at its first dot. */
  lemma {:induction false} ShapeIsDotAtom(s: string)
    requires DotAtomShape(s)
    ensures IsDotAtom(s)
    decreases |s|
  {
    var i := FirstIndexOf(s, '.');
    if i == |s| {
      assert IsAtom(s);
    } else {
      assert 0 < i < |s| - 1;
      var head, rest := s[..i], s[i + 1..];
      assert forall j | 0 <= j < |head| :: head[j] == s[j];
      assert IsAtom(head);
      assert forall j | 0 <= j < |rest| :: rest[j] == s[j + i + 1];
      assert DotAtomShape(rest);
      ShapeIsDotAtom(rest);
      assert s[i] == '.' && IsAtom(s[..i]) && IsDotAtom(s[i + 1..]);
    }
  }

  /** A host name has at least one dot, starts and ends with a letter or digit, and uses only letters, digits, '-' and '.'. */
  lemma {:induction false} HostNameShape(s: string)
    requires IsHostName(s)
    ensures '.' in s
    ensures IsLowerAlnum(s[0]) && IsLowerAlnum(s[|s| - 1])
    ensures forall j | 0 <= j < |s| :: IsLowerAlnum(s[j]) || s[j] == '-' || s[j] == '.'
    decreases |s|
  {
    var i :| 0 < i < |s| && s[i] == '.' && IsLabel(s[..i]) && (IsLabel(s[i + 1..]) || IsHostName(s[i + 1..]));
    var head, rest := s[..i], s[i + 1..];
    if !IsLabel(rest) {
      HostNameShape(rest);
    }
    assert IsLowerAlnum(rest[|rest| - 1]) && s[|s| - 1] == rest[|rest| - 1];
    assert s[0] == head[0];
    forall j | 0 <= j < |s|
      ensures IsLowerAlnum(s[j]) || s[j] == '-' || s[j] == '.'
    {
      if j < i {
        assert s[j] == head[j];
      } else if j > i {
        assert s[j] == rest[j - (i + 1)];
      }
    }
  }

  /** The split an accepted address is matched at. */
  lemma SplitOfMatch(s: string) returns (i: nat)
    requires MatchesEmailPattern(s)
    ensures 0 < i < |s| - 1 && s[i] == '@' && IsLocalPart(s[..i]) && IsDomain(s[i + 1..])
  {
    i :| 0 < i < |s| - 1 && s[i] == '@' && IsLocalPart(s[..i]) && IsDomain(s[i + 1..]);
  }

  /** An unquoted local part has no upper-case letter. */
  lemma UnquotedLocalPartIsLowerCase(local: string)
    requires IsLocalPart(local) && local[0] != '"'
    ensures forall j | 0 <= j < |local| :: !('A' <= local[j] <= 'Z')
  {
    assert !IsQuotedString(local);
    DotAtomHasShape(local);
  }

  /** A domain that is not a literal has no upper-case letter. */
  lemma HostDomainIsLowerCase(domain: string)
    requires IsDomain(domain) && domain[0] != '['
    ensures forall j | 0 <= j < |domain| :: !('A' <= domain[j] <= 'Z')
  {
    assert !IsDomainLiteral(domain);
    HostNameShape(domain);
  }

  /** Outside a quoted local part and a domain literal the pattern admits no upper-case letter. */
  lemma NoUpperCaseOutsideQuotes(s: string)
    requires MatchesEmailPattern(s) && s[0] != '"' && '[' !in s
    ensures forall j | 0 <= j < |s| :: !('A' <= s[j] <= 'Z')
  {
    var i := SplitOfMatch(s);
    var local, domain := s[..i], s[i + 1..];
    assert local[0] == s[0];
    UnquotedLocalPartIsLowerCase(local);
    assert domain[0] == s[i + 1];
    HostDomainIsLowerCase(domain);
    forall j | 0 <= j < |s|
      ensures !('A' <= s[j] <= 'Z')
    {
      if j < i {
        assert s[j] == local[j];
      } else if j > i {
        assert s[j] == domain[j - i - 1];
      }
    }
  }

  /** A blank string has no '@', so the pattern already rejects it. */
  lemma BlankNeverMatches(s: string)
    requires IsBlank(s)
    ensures !MatchesEmailPattern(s)
  {
  }

  lemma AcceptsPlainAddress()
    ensures MatchesEmailPattern("user@example.com")
  {
    var s := "user@example.com";
    var domain := s[5..];
    assert domain == "example.com";
    assert domain[7] == '.' && domain[..7] == "example" && domain[8..] == "com";
    assert IsLabel(domain[..7]) && IsLabel(domain[8..]);
    assert IsHostName(domain);
    assert s[..4] == "user" && IsAtom(s[..4]);
    assert s[4] == '@';
  }

  lemma RejectsUpperCase()
    ensures !MatchesEmailPattern("User@example.com")
  {
    var s := "User@example.com";
    if MatchesEmailPattern(s) {
      assert forall k | 0 <= k < |s| :: s[k] != '[';
      NoUpperCaseOutsideQuotes(s);
      assert false;
    }
  }

  /** A domain without a dot that does not open a literal is rejected. */
  lemma DotlessIsNoDomain(domain: string)
    requires |domain| > 0 && '.' !in domain && domain[0] != '['
    ensures !IsDomain(domain)
  {
    if IsHostName(domain) {
      HostNameShape(domain);
    }
  }

  /** A single-label domain is not a host name: the pattern wants at least one dot. */
  lemma RejectsDotlessDomain()
    ensures !MatchesEmailPattern("a@localhost")
  {
    var s := "a@localhost";
    assert s[2..] == "localhost";
    DotlessIsNoDomain(s[2..]);
    assert forall i | 0 < i < |s| - 1 && s[i] == '@' :: i == 1;
  }
}
