/** Preview host names: a DNS label made from a project slug and a pull-request number. The SHA-256 digest of
    the slug, in lower-case hexadecimal, is a parameter. */
module Hostname {
  import opened Common

  predicate IsLower(c: char) { 'a' <= c <= 'z' }

  predicate IsUpper(c: char) { 'A' <= c <= 'Z' }

  predicate IsDigit(c: char) { '0' <= c <= '9' }

  predicate IsAlphanumeric(c: char) { IsLower(c) || IsUpper(c) || IsDigit(c) }

  function ToLower(c: char): (r: char)
    ensures IsUpper(c) ==> IsLower(r) && r as int == c as int + 32
    ensures !IsUpper(c) ==> r == c
  {
    if IsUpper(c) then c - 'A' + 'a' else c
  }

  // The characters by their ASCII codes.
  lemma AsciiCodes(c: char)
    ensures IsAlphanumeric(c) <==> 48 <= c as int <= 57 || 65 <= c as int <= 90 || 97 <= c as int <= 122
    ensures IsLabelChar(c) <==> 48 <= c as int <= 57 || 97 <= c as int <= 122
  {
  }

  predicate IsHex(c: char) { IsDigit(c) || 'a' <= c <= 'f' }

  predicate IsLabelChar(c: char) { IsLower(c) || IsDigit(c) }

  // ---------------------------------------------------------------- decimal numbers

  function Digit(d: nat): (c: char)
    requires d < 10
    ensures IsDigit(c)
  {
    '0' + d as char
  }

  function Decimal(n: nat): string {
    if n < 10 then [Digit(n)] else Decimal(n / 10) + [Digit(n % 10)]
  }

  function Value(s: string): nat
    requires forall c :: c in s ==> IsDigit(c)
  {
    if s == [] then 0
    else
      assert IsDigit(s[|s| - 1]);
      10 * Value(s[..|s| - 1]) + (s[|s| - 1] - '0') as nat
  }

  lemma {:induction false} DecimalIsRead(n: nat)
    ensures Decimal(n) != [] && forall c :: c in Decimal(n) ==> IsDigit(c)
    ensures Value(Decimal(n)) == n
  {
    if n < 10 {
      assert Decimal(n)[..0] == [];
    } else {
      DecimalIsRead(n / 10);
      assert Decimal(n)[..|Decimal(n)| - 1] == Decimal(n / 10);
    }
  }

  function Power(k: nat): nat { if k == 0 then 1 else 10 * Power(k - 1) }

  lemma {:induction false} DecimalIsShort(n: nat, k: nat)
    requires k >= 1 && n < Power(k)
    ensures |Decimal(n)| <= k
  {
    if n >= 10 {
      DecimalIsShort(n / 10, k - 1);
    }
  }

  lemma U64HasTwentyDigits(n: nat)
    requires n < 0x1_0000_0000_0000_0000
    ensures |Decimal(n)| <= 20
  {
    assert Power(5) == 100_000;
    assert Power(10) == 10_000_000_000;
    assert Power(15) == 1_000_000_000_000_000;
    assert Power(20) == 100_000_000_000_000_000_000;
    DecimalIsShort(n, 20);
  }

  // ---------------------------------------------------------------- sanitising

  // Lower-case letters, digits and single hyphens.
  ghost predicate Clean(s: string) {
    && (forall i :: 0 <= i < |s| ==> IsLabelChar(s[i]) || s[i] == '-')
    && (forall i :: 0 < i < |s| ==> s[i - 1] != '-' || s[i] != '-')
  }

  // Runs of other characters become one hyphen.
  function Sanitized(slug: string): string {
    if slug == [] then []
    else
      var before, c := Sanitized(slug[..|slug| - 1]), slug[|slug| - 1];
      if IsAlphanumeric(c) then before + [ToLower(c)]
      else if before != [] && before[|before| - 1] == '-' then before
      else before + ['-']
  }

  lemma {:induction false} SanitizedIsClean(slug: string)
    ensures Clean(Sanitized(slug))
  {
    if slug != [] {
      SanitizedIsClean(slug[..|slug| - 1]);
    }
  }

  function TrimStart(s: string): string { if s != [] && s[0] == '-' then TrimStart(s[1..]) else s }

  function TrimEnd(s: string): string { if s != [] && s[|s| - 1] == '-' then TrimEnd(s[..|s| - 1]) else s }

  lemma {:induction false} TrimEndKeeps(s: string)
    requires Clean(s)
    ensures Clean(TrimEnd(s)) && TrimEnd(s) <= s
    ensures TrimEnd(s) != [] ==> IsLabelChar(TrimEnd(s)[|TrimEnd(s)| - 1])
    ensures s != [] && s[0] != '-' ==> TrimEnd(s) != []
  {
    if s != [] && s[|s| - 1] == '-' {
      TrimEndKeeps(s[..|s| - 1]);
    }
  }

  lemma {:induction false} TrimStartKeeps(s: string)
    requires Clean(s)
    ensures Clean(TrimStart(s)) && |TrimStart(s)| <= |s|
    ensures TrimStart(s) != [] ==> IsLabelChar(TrimStart(s)[0])
    ensures (exists i :: 0 <= i < |s| && s[i] != '-') <==> TrimStart(s) != []
  {
    if s != [] && s[0] == '-' {
      TrimStartKeeps(s[1..]);
    }
  }

  function Trimmed(slug: string): string { TrimEnd(TrimStart(Sanitized(slug))) }

  lemma {:induction false} SanitizedKeepsLetters(slug: string)
    ensures (exists i :: 0 <= i < |Sanitized(slug)| && Sanitized(slug)[i] != '-')
       <==> (exists i :: 0 <= i < |slug| && IsAlphanumeric(slug[i]))
  {
    if slug != [] {
      var before, c := slug[..|slug| - 1], slug[|slug| - 1];
      var s, t := Sanitized(slug), Sanitized(before);
      SanitizedKeepsLetters(before);
      assert forall i :: 0 <= i < |before| ==> before[i] == slug[i];
      assert forall i :: 0 <= i < |t| ==> t[i] == s[i];
      if IsAlphanumeric(c) {
        assert s[|t|] != '-' && IsAlphanumeric(slug[|before|]);
      } else if exists i :: 0 <= i < |s| && s[i] != '-' {
        var i :| 0 <= i < |s| && s[i] != '-';
        assert t[i] != '-';
      }
    }
  }

  // ---------------------------------------------------------------- what a slug keeps

  function Letters(s: string): string {
    if s == [] then []
    else Letters(s[..|s| - 1]) + if s[|s| - 1] != '-' then [s[|s| - 1]] else []
  }

  // The letters and digits of the slug, in lower case.
  function LowerLetters(slug: string): string {
    if slug == [] then []
    else LowerLetters(slug[..|slug| - 1]) + if IsAlphanumeric(slug[|slug| - 1]) then [ToLower(slug[|slug| - 1])] else []
  }

  lemma {:induction false} SanitizedLetters(slug: string)
    ensures Letters(Sanitized(slug)) == LowerLetters(slug)
  {
    if slug != [] {
      SanitizedLetters(slug[..|slug| - 1]);
      var before, s := Sanitized(slug[..|slug| - 1]), Sanitized(slug);
      assert |s| == |before| + 1 ==> s[..|s| - 1] == before;
    }
  }

  lemma {:induction false} LettersAfterHyphen(s: string)
    requires s != [] && s[0] == '-'
    ensures Letters(s[1..]) == Letters(s)
  {
    if |s| > 1 {
      assert s[1..][..|s| - 2] == s[..|s| - 1][1..];
      LettersAfterHyphen(s[..|s| - 1]);
    } else {
      assert s[1..] == [] && s[..0] == [];
    }
  }

  lemma {:induction false} TrimStartLetters(s: string)
    ensures Letters(TrimStart(s)) == Letters(s)
  {
    if s != [] && s[0] == '-' {
      LettersAfterHyphen(s);
      TrimStartLetters(s[1..]);
    }
  }

  lemma {:induction false} TrimEndLetters(s: string)
    ensures Letters(TrimEnd(s)) == Letters(s)
  {
    if s != [] && s[|s| - 1] == '-' {
      TrimEndLetters(s[..|s| - 1]);
    }
  }

  /** Sanitising keeps every letter and digit of the slug, in order and in lower case. */
  lemma TrimmedKeepsLetters(slug: string)
    ensures Letters(Trimmed(slug)) == LowerLetters(slug)
  {
    SanitizedLetters(slug);
    TrimStartLetters(Sanitized(slug));
    TrimEndLetters(TrimStart(Sanitized(slug)));
  }

  lemma {:induction false} CleanIsSanitized(s: string)
    requires Clean(s)
    ensures Sanitized(s) == s
  {
    if s != [] {
      CleanIsSanitized(s[..|s| - 1]);
      assert s == s[..|s| - 1] + [s[|s| - 1]];
    }
  }

  /** A slug that already looks like a label is left as it is, so sanitising twice changes nothing. */
  lemma LabelsAreFixed(s: string)
    requires Clean(s) && s != [] && IsLabelChar(s[0]) && IsLabelChar(s[|s| - 1])
    ensures Trimmed(s) == s
  {
    CleanIsSanitized(s);
  }

  // The slug part of a label: not empty exactly when the slug has a letter or a digit.
  lemma TrimmedIs(slug: string)
    ensures Clean(Trimmed(slug))
    ensures Trimmed(slug) != [] <==> exists i :: 0 <= i < |slug| && IsAlphanumeric(slug[i])
    ensures Trimmed(slug) != [] ==> IsLabelChar(Trimmed(slug)[0]) && IsLabelChar(Trimmed(slug)[|Trimmed(slug)| - 1])
  {
    SanitizedIsClean(slug);
    SanitizedKeepsLetters(slug);
    TrimStartKeeps(Sanitized(slug));
    TrimEndKeeps(TrimStart(Sanitized(slug)));
  }

  // ---------------------------------------------------------------- labels

  /** A label as RFC 1035 section 2.3.4 and RFC 1123 section 2.1 allow it, with no two hyphens in a row. */
  ghost predicate IsDnsLabel(s: string) {
    && 1 <= |s| <= 63
    && Clean(s)
    && IsLabelChar(s[0]) && IsLabelChar(s[|s| - 1])
  }

  function Suffix(pr: nat): string { "-pr-" + Decimal(pr) }

  predicate IsDigest(hash: string) { |hash| == 64 && forall i :: 0 <= i < |hash| ==> IsHex(hash[i]) }

  // What stands before the suffix: the slug, or as much of it as fits with six digits of its digest.
  function Base(slug: string, pr: nat, hash: string): string
    requires |hash| >= 6
  {
    var trimmed := Trimmed(slug);
    if |trimmed| + |Suffix(pr)| <= 63 then trimmed
    else TrimEnd(trimmed[..Room(trimmed, pr)]) + "-" + hash[..6]
  }

  // How much of the slug fits.
  function Room(trimmed: string, pr: nat): nat {
    var rest := 63 - (7 + |Suffix(pr)|);
    if rest < 0 then 0 else if rest < |trimmed| then rest else |trimmed|
  }

  method PreviewLabel(slug: string, pr: nat, hash: string) returns (r: Result<string>)
    requires pr < 0x1_0000_0000_0000_0000 && IsDigest(hash)
    ensures r.Err? <==> forall i :: 0 <= i < |slug| ==> !IsAlphanumeric(slug[i])
    ensures r.Ok? ==> r.value == Base(slug, pr, hash) + Suffix(pr) && IsDnsLabel(r.value)
    ensures r.Ok? && |Trimmed(slug)| + |"-pr-"| + |Decimal(pr)| <= 63 ==> r.value == Trimmed(slug) + "-pr-" + Decimal(pr)
    ensures r.Ok? && |Trimmed(slug)| + |"-pr-"| + |Decimal(pr)| > 63 ==>
      && 62 <= |r.value| <= 63
      && exists head :: head <= Trimmed(slug) && r.value == head + "-" + hash[..6] + "-pr-" + Decimal(pr)
  {
    var suffix := Suffix(pr);
    var sanitized, prevHyphen := "", false;
    for i := 0 to |slug|
      invariant sanitized == Sanitized(slug[..i])
      invariant prevHyphen <==> sanitized != [] && sanitized[|sanitized| - 1] == '-'
    {
      assert slug[..i + 1][..i] == slug[..i];
      if IsAlphanumeric(slug[i]) {
        sanitized, prevHyphen := sanitized + [ToLower(slug[i])], false;
      } else if !prevHyphen {
        sanitized, prevHyphen := sanitized + ['-'], true;
      }
    }
    assert slug[..|slug|] == slug;
    var trimmed := TrimEnd(TrimStart(sanitized));
    TrimmedIs(slug);
    if trimmed == [] {
      return Err;
    }
    SuffixIsClean(pr);
    if |trimmed| + |suffix| <= 63 {
      LabelIsDns(trimmed, pr);
      assert trimmed + suffix == trimmed + "-pr-" + Decimal(pr);
      return Ok(trimmed + suffix);
    }
    var hashSuffix := "-" + hash[..6];
    var overhead := |hashSuffix| + |suffix|;
    // The program's check that the overhead fits can never fail.
    assert overhead <= 31;
    var allowed := 63 - overhead;
    var truncated := TrimEnd(trimmed[..if allowed < |trimmed| then allowed else |trimmed|]);
    LongBaseIsClean(trimmed, pr, hash);
    LabelIsDns(truncated + hashSuffix, pr);
    assert truncated + "-" + hash[..6] == truncated + hashSuffix;
    r := Ok(truncated + hashSuffix + suffix);
    CutIsClose(trimmed, allowed, hash, pr);
  }

  // As much of the slug as fits is kept, but for one hyphen.
  lemma CutIsClose(trimmed: string, allowed: nat, hash: string, pr: nat)
    requires Clean(trimmed) && allowed <= |trimmed| && |hash| >= 6
    ensures var head := TrimEnd(trimmed[..allowed]);
      && head <= trimmed && allowed - 1 <= |head| <= allowed
      && head + ("-" + hash[..6]) + Suffix(pr) == head + "-" + hash[..6] + "-pr-" + Decimal(pr)
  {
    CleanPrefix(trimmed, allowed);
    TrimEndKeeps(trimmed[..allowed]);
    TrimEndIsClose(trimmed[..allowed]);
  }

  lemma CleanPrefix(s: string, n: nat)
    requires Clean(s) && n <= |s|
    ensures Clean(s[..n])
  {
  }

  // With no two hyphens in a row there is at most one to trim.
  lemma TrimEndIsClose(s: string)
    requires Clean(s)
    ensures |TrimEnd(s)| >= |s| - 1
  {
    if |s| >= 2 && s[|s| - 1] == '-' {
      assert s[|s| - 2] != '-';
      assert TrimEnd(s[..|s| - 1]) == s[..|s| - 1];
    }
  }

  lemma Joined(a: string, b: string)
    requires Clean(a) && Clean(b) && (a == [] || b == [] || a[|a| - 1] != '-' || b[0] != '-')
    ensures Clean(a + b)
  {
  }

  lemma SuffixIsClean(pr: nat)
    requires pr < 0x1_0000_0000_0000_0000
    ensures Clean(Suffix(pr)) && 5 <= |Suffix(pr)| <= 24 && IsLabelChar(Suffix(pr)[|Suffix(pr)| - 1])
  {
    DecimalIsRead(pr);
    U64HasTwentyDigits(pr);
    assert forall i :: 0 <= i < |Decimal(pr)| ==> Decimal(pr)[i] in Decimal(pr);
    Joined("-pr-", Decimal(pr));
  }

  lemma LabelIsDns(base: string, pr: nat)
    requires pr < 0x1_0000_0000_0000_0000 && IsDnsLabel(base) && |base| + |Suffix(pr)| <= 63
    ensures IsDnsLabel(base + Suffix(pr))
  {
    SuffixIsClean(pr);
    Joined(base, Suffix(pr));
  }

  lemma LongBaseIsClean(trimmed: string, pr: nat, hash: string)
    requires pr < 0x1_0000_0000_0000_0000 && IsDigest(hash) && |trimmed| + |Suffix(pr)| > 63
    requires Clean(trimmed) && trimmed != [] && IsLabelChar(trimmed[0])
    ensures var base := TrimEnd(trimmed[..Room(trimmed, pr)]) + ("-" + hash[..6]);
            IsDnsLabel(base) && |base| + |Suffix(pr)| <= 63
  {
    SuffixIsClean(pr);
    var head := trimmed[..Room(trimmed, pr)];
    TrimEndKeeps(head);
    Joined("-", hash[..6]);
    Joined(TrimEnd(head), "-" + hash[..6]);
  }

  // ---------------------------------------------------------------- labels tell pull requests apart

  // What follows the last hyphen.
  function AfterHyphen(s: string): string {
    if s == [] || s[|s| - 1] == '-' then [] else AfterHyphen(s[..|s| - 1]) + [s[|s| - 1]]
  }

  lemma {:induction false} AfterHyphenIs(a: string, d: string)
    requires '-' !in d
    ensures AfterHyphen(a + "-" + d) == d
  {
    var s := a + "-" + d;
    if d != [] {
      assert s[..|s| - 1] == a + "-" + d[..|d| - 1];
      AfterHyphenIs(a, d[..|d| - 1]);
    }
  }

  lemma LastHyphen(a: string, d: string, a': string, d': string)
    requires a + "-" + d == a' + "-" + d' && '-' !in d && '-' !in d'
    ensures a == a' && d == d'
  {
    AfterHyphenIs(a, d);
    AfterHyphenIs(a', d');
    assert |a + "-" + d| == |a' + "-" + d'|;
    assert a == (a + "-" + d)[..|a|] && a' == (a' + "-" + d')[..|a'|];
  }

  /** Two equal labels name the same pull request, whatever their slugs; two slugs that both fit are equal after
      sanitising, and two that were both cut have digests that begin alike. */
  lemma LabelsTellApart(slug: string, pr: nat, hash: string, slug': string, pr': nat, hash': string)
    requires |hash| >= 6 && |hash'| >= 6
    requires Base(slug, pr, hash) + Suffix(pr) == Base(slug', pr', hash') + Suffix(pr')
    ensures pr == pr' && Base(slug, pr, hash) == Base(slug', pr', hash')
    ensures |Trimmed(slug)| + |Suffix(pr)| <= 63 && |Trimmed(slug')| + |Suffix(pr)| <= 63 ==> Trimmed(slug) == Trimmed(slug')
    ensures |Trimmed(slug)| + |Suffix(pr)| > 63 && |Trimmed(slug')| + |Suffix(pr)| > 63 ==> hash[..6] == hash'[..6]
  {
    var b, b' := Base(slug, pr, hash), Base(slug', pr', hash');
    var d, d' := Decimal(pr), Decimal(pr');
    DecimalIsRead(pr);
    DecimalIsRead(pr');
    assert b + "-pr" + "-" + d == b + Suffix(pr);
    assert b' + "-pr" + "-" + d' == b' + Suffix(pr');
    LastHyphen(b + "-pr", d, b' + "-pr", d');
    assert b == (b + "-pr")[..|b|] && b' == (b' + "-pr")[..|b'|];
    if |Trimmed(slug)| + |Suffix(pr)| > 63 && |Trimmed(slug')| + |Suffix(pr)| > 63 {
      assert |b| >= 6 && |b'| >= 6 && b[|b| - 6..] == hash[..6] && b'[|b'| - 6..] == hash'[..6];
    }
  }
}
