/**
  Validation of the PlayStation's IPv4 address: the required-value guard,
  whitespace stripping, the dotted-quad pattern and the address check that
  `socket.inet_pton` performs, each failing with its own error.
 */
module Validators {
  import opened Wrappers
  import opened Text

  // ---------------------------------------------------------------- stripping

  /** The ASCII characters Python's `str.strip()` removes: space, tab to carriage return, and 0x1C to 0x1F. */
  predicate IsSpace(c: char) {
    c == ' ' || ('\t' <= c <= '\r') || (28 <= c as int <= 31)
  }

  /** How many spaces `s` starts with. */
  function LeadingSpaces(s: string): (n: nat)
    ensures n <= |s|
    ensures forall i :: 0 <= i < n ==> IsSpace(s[i])
    ensures n < |s| ==> !IsSpace(s[n])
  {
    if |s| > 0 && IsSpace(s[0]) then 1 + LeadingSpaces(s[1..]) else 0
  }

  /** How many spaces `s` ends with. */
  function TrailingSpaces(s: string): (n: nat)
    ensures n <= |s|
    ensures forall i :: |s| - n <= i < |s| ==> IsSpace(s[i])
    ensures n < |s| ==> !IsSpace(s[|s| - 1 - n])
  {
    if |s| > 0 && IsSpace(s[|s| - 1]) then 1 + TrailingSpaces(s[..|s| - 1]) else 0
  }

  /**
    `s.strip()`: what remains of `s` without its leading and trailing
    spaces; it neither starts nor ends with a space.
   */
  function Strip(s: string): (r: string)
    ensures |r| > 0 ==> !IsSpace(r[0]) && !IsSpace(r[|r| - 1])
    ensures LeadingSpaces(s) + |r| <= |s| && r == s[LeadingSpaces(s)..LeadingSpaces(s) + |r|]
    ensures forall k :: 0 <= k < LeadingSpaces(s) ==> IsSpace(s[k])
    ensures forall k :: LeadingSpaces(s) + |r| <= k < |s| ==> IsSpace(s[k])
  {
    var rest := s[LeadingSpaces(s)..];
    rest[..|rest| - TrailingSpaces(rest)]
  }

  /**
    When `v` is spaces up to `a`, spaces from `b` on, and neither `v[a]` nor
    `v[b - 1]` is a space, `strip` leaves exactly `v[a..b]`.
   */
  lemma StripFindsMiddle(v: string, a: nat, b: nat)
    requires a < b <= |v|
    requires forall i :: 0 <= i < a ==> IsSpace(v[i])
    requires forall i :: b <= i < |v| ==> IsSpace(v[i])
    requires !IsSpace(v[a]) && !IsSpace(v[b - 1])
    ensures Strip(v) == v[a..b]
  {
    var n, r := LeadingSpaces(v), Strip(v);
    assert n == a;
    assert |r| == b - a;
  }

  /** Stripping twice is stripping once. */
  lemma StripIdempotent(s: string)
    ensures Strip(Strip(s)) == Strip(s)
  {
    var r := Strip(s);
    if |r| > 0 {
      StripFindsMiddle(r, 0, |r|);
      assert r[0..|r|] == r;
    }
  }

  /** Spaces put around a string with no space at either end are what `strip` removes. */
  lemma StripRemovesPadding(t: string, before: string, after: string)
    requires |t| > 0 && !IsSpace(t[0]) && !IsSpace(t[|t| - 1])
    requires forall i :: 0 <= i < |before| ==> IsSpace(before[i])
    requires forall i :: 0 <= i < |after| ==> IsSpace(after[i])
    ensures Strip(before + t + after) == t
  {
    var v := before + t + after;
    var a, b := |before|, |before| + |t|;
    assert v[a..b] == t;
    assert forall i :: b <= i < |v| ==> v[i] == after[i - b];
    StripFindsMiddle(v, a, b);
  }

  // ---------------------------------------------------------------- the pattern

  /** The length of the run of digits `s` starts with. */
  function DigitRun(s: string): (n: nat)
    ensures n <= |s| && AllDigits(s[..n]) && (n < |s| ==> !IsDigit(s[n]))
  {
    if |s| > 0 && IsDigit(s[0]) then
      var n := 1 + DigitRun(s[1..]);
      assert s[..n] == [s[0]] + s[1..][..n - 1];
      n
    else 0
  }

  /**
    `(\d{1,3}\.){k}\d{1,3}` matched against the whole of `s`.  A digit
    group is always followed by '.' or the end, so it takes the whole run
    of digits.
   */
  function MatchGroups(s: string, k: nat): bool
    decreases k
  {
    var n := DigitRun(s);
    if k == 0 then 1 <= n <= 3 && n == |s|
    else 1 <= n <= 3 && n < |s| && s[n] == '.' && MatchGroups(s[n + 1..], k - 1)
  }

  /** `re.match(r'^(\d{1,3}\.){3}\d{1,3}$', s)`, where `$` also matches before a final newline. */
  predicate MatchesPattern(s: string) {
    MatchGroups(s, 3) || (|s| > 0 && s[|s| - 1] == '\n' && MatchGroups(s[..|s| - 1], 3))
  }

  /** A stripped string does not end in a newline, so only the plain match can apply. */
  lemma StrippedMatchesExactly(s: string)
    ensures MatchesPattern(Strip(s)) == MatchGroups(Strip(s), 3)
  {
    var r := Strip(s);
    if |r| > 0 {
      assert r[|r| - 1] != '\n';
    }
  }

  // ---------------------------------------------------------------- splitting

  /** Python's `s.split(c)`. */
  function Split(s: string, c: char): (parts: seq<string>)
    ensures |parts| >= 1
    ensures forall i :: 0 <= i < |parts| ==> c !in parts[i]
  {
    if |s| == 0 then [""]
    else
      var rest := Split(s[1..], c);
      if s[0] == c then [""] + rest else [[s[0]] + rest[0]] + rest[1..]
  }

  /** Joining the parts with `c` gives the string back. */
  function Join(parts: seq<string>, c: char): string
    requires |parts| >= 1
  {
    if |parts| == 1 then parts[0] else parts[0] + [c] + Join(parts[1..], c)
  }

  lemma {:induction false} SplitJoin(s: string, c: char)
    ensures Join(Split(s, c), c) == s
    decreases |s|
  {
    if |s| > 0 {
      SplitJoin(s[1..], c);
      var rest := Split(s[1..], c);
      if s[0] != c && |rest| > 1 {
        assert ([[s[0]] + rest[0]] + rest[1..])[1..] == rest[1..];
        assert rest[1..] == rest[1..][0..];
        assert Join(rest, c) == rest[0] + [c] + Join(rest[1..], c);
      }
    }
  }

  /** Splitting what was joined gives the parts back, when no part contains the separator. */
  lemma {:induction false} SplitOfJoin(parts: seq<string>, c: char)
    requires |parts| >= 1 && forall i :: 0 <= i < |parts| ==> c !in parts[i]
    ensures Split(Join(parts, c), c) == parts
    decreases |parts|
  {
    if |parts| == 1 {
      SplitWithout(parts[0], c);
    } else {
      var tail := Join(parts[1..], c);
      var s := Join(parts, c);
      var n := |parts[0]|;
      assert s == parts[0] + [c] + tail;
      assert s[..n] == parts[0] && s[n] == c && s[n + 1..] == tail;
      SplitAfterRun(s, n, c);
      SplitOfJoin(parts[1..], c);
      assert [parts[0]] + parts[1..] == parts;
    }
  }

  /**
    A part of the address as the C library's `inet_pton` reads it: one to
    three ASCII digits, no leading zero unless the part is "0", and a value
    of at most 255.
   */
  predicate IsOctet(p: string) {
    1 <= |p| <= 3 && AllDigits(p) && (|p| > 1 ==> p[0] != '0') && DigitsValue(p) <= 255
  }

  /** The shape the pattern accepts: one to three digits. */
  predicate IsDigitGroup(p: string) {
    1 <= |p| <= 3 && AllDigits(p)
  }

  /** Splitting a string that starts with a digit run ended by `c`. */
  lemma {:induction false} SplitAfterRun(s: string, n: nat, c: char)
    requires n < |s| && s[n] == c && c !in s[..n]
    ensures Split(s, c) == [s[..n]] + Split(s[n + 1..], c)
    decreases n
  {
    if n > 0 {
      assert s[1..][n - 1] == c;
      assert s[1..][..n - 1] == s[..n][1..];
      SplitAfterRun(s[1..], n - 1, c);
      assert s[1..][n..] == s[n + 1..];
      assert [s[0]] + s[1..][..n - 1] == s[..n];
    }
  }

  /** A string with no `c` in it is a single part. */
  lemma {:induction false} SplitWithout(s: string, c: char)
    requires c !in s
    ensures Split(s, c) == [s]
    decreases |s|
  {
    if |s| > 0 {
      assert c !in s[1..] by {
        assert forall k :: 0 <= k < |s| - 1 ==> s[1..][k] == s[k + 1];
      }
      SplitWithout(s[1..], c);
      assert [s[0]] + s[1..] == s;
    }
  }

  /** Every part has the pattern's shape. */
  predicate AllDigitGroups(parts: seq<string>) {
    forall i :: 0 <= i < |parts| ==> IsDigitGroup(parts[i])
  }

  lemma AllDigitGroupsCons(p: string, rest: seq<string>)
    ensures AllDigitGroups([p] + rest) <==> IsDigitGroup(p) && AllDigitGroups(rest)
  {
    var q := [p] + rest;
    assert q[0] == p;
    assert forall i :: 1 <= i < |q| ==> q[i] == rest[i - 1];
    assert forall i :: 0 <= i < |rest| ==> rest[i] == q[i + 1];
  }

  /** A run of digits holds no dot. */
  lemma NoDotInRun(s: string)
    ensures '.' !in s[..DigitRun(s)]
  {
    assert AllDigits(s[..DigitRun(s)]);
  }

  /**
    The pattern and the split agree: `k + 1` groups of one to three digits
    separated by dots are exactly `k + 1` dot-separated parts of that shape.
   */
  lemma {:induction false} MatchGroupsIffSplit(s: string, k: nat)
    ensures MatchGroups(s, k) <==> |Split(s, '.')| == k + 1 && AllDigitGroups(Split(s, '.'))
    decreases k
  {
    var n := DigitRun(s);
    if n < |s| && s[n] == '.' {
      if k > 0 {
        MatchGroupsIffSplit(s[n + 1..], k - 1);
      }
      DotIffSplit(s, k);
    } else if n == |s| {
      AllDigitsIffSplit(s, k);
    } else {
      // a character other than a digit or a dot ends the run: it lies inside the first part
      FirstPartStopsAtNonDigit(s, n);
    }
  }

  /** A digit run ended by a dot: the first group and the first part are the run. */
  lemma DotIffSplit(s: string, k: nat)
    requires DigitRun(s) < |s| && s[DigitRun(s)] == '.'
    requires k > 0 ==>
      var tail := s[DigitRun(s) + 1..];
      (MatchGroups(tail, k - 1) <==> |Split(tail, '.')| == k && AllDigitGroups(Split(tail, '.')))
    ensures MatchGroups(s, k) <==> |Split(s, '.')| == k + 1 && AllDigitGroups(Split(s, '.'))
  {
    var n := DigitRun(s);
    NoDotInRun(s);
    SplitAfterRun(s, n, '.');
    AllDigitGroupsCons(s[..n], Split(s[n + 1..], '.'));
  }

  /** A string of digits only is a single part, which is a group when it is short enough. */
  lemma AllDigitsIffSplit(s: string, k: nat)
    requires DigitRun(s) == |s|
    ensures MatchGroups(s, k) <==> |Split(s, '.')| == k + 1 && AllDigitGroups(Split(s, '.'))
  {
    NoDotInRun(s);
    assert s[..|s|] == s;
    SplitWithout(s, '.');
    assert AllDigitGroups([s]) <==> IsDigitGroup(s) by {
      assert [s][0] == s;
    }
  }

  /** When the digit run is ended by something that is not a dot, the first part is not a digit group. */
  lemma FirstPartStopsAtNonDigit(s: string, n: nat)
    requires n == DigitRun(s) && n < |s| && s[n] != '.'
    ensures !IsDigitGroup(Split(s, '.')[0])
  {
    NoDotThroughRun(s, n);
    NonDotStaysInFirstPart(s, n);
    NonDigitBreaksGroup(Split(s, '.')[0], n);
  }

  /** A digit run and the non-dot that ends it hold no dot. */
  lemma NoDotThroughRun(s: string, n: nat)
    requires n == DigitRun(s) && n < |s| && s[n] != '.'
    ensures '.' !in s[..n + 1]
  {
    assert forall k :: 0 <= k < n ==> s[..n + 1][k] == s[..n][k];
  }

  /** A part with a character that is not a digit is not a digit group. */
  lemma NonDigitBreaksGroup(p: string, j: nat)
    requires j < |p| && !IsDigit(p[j])
    ensures !IsDigitGroup(p)
  {
  }

  /** A character before the first dot lies in the first part, at the same place. */
  lemma {:induction false} NonDotStaysInFirstPart(s: string, j: nat)
    requires j < |s| && '.' !in s[..j + 1]
    ensures |Split(s, '.')[0]| > j && Split(s, '.')[0][j] == s[j]
    decreases j
  {
    assert s[0] in s[..j + 1];
    if j > 0 {
      assert s[1..][..j] == s[..j + 1][1..];
      NonDotStaysInFirstPart(s[1..], j - 1);
    }
  }

  // ---------------------------------------------------------------- the checks

  /** `is_valid_ip`: four dot-separated parts, each one to three ASCII digits worth at most 255. */
  predicate IsValidIp(ip: string) {
    var parts := Split(ip, '.');
    |parts| == 4 && forall i :: 0 <= i < 4 ==> IsOctet(parts[i])
  }

  /** The three errors `validate_ps_ip` raises. */
  datatype ValidationError = Required | InvalidFormat | InvalidAddress

  /**
    `validate_ps_ip`; `None` stands for `None` and for any value that is not
    a string.
   */
  function ValidatePsIp(ip: Option<string>): (r: Result<string, ValidationError>)
    ensures r == Err(Required) <==> ip.None? || ip.value == ""
    ensures r == Err(InvalidFormat) <==> ip.Some? && ip.value != "" && !MatchGroups(Strip(ip.value), 3)
    ensures r == Err(InvalidAddress) <==>
      ip.Some? && ip.value != "" && MatchGroups(Strip(ip.value), 3) && !IsValidIp(Strip(ip.value))
    ensures r.Ok? <==> ip.Some? && ip.value != "" && IsValidIp(Strip(ip.value))
    ensures r.Ok? ==> r.value == Strip(ip.value)
  {
    if ip.None? || ip.value == "" then Err(Required)
    else
      var s := Strip(ip.value);
      StrippedMatchesExactly(ip.value);
      ValidIffPatternAndOctets(s);
      if !MatchesPattern(s) then Err(InvalidFormat)
      else if !IsValidIp(s) then Err(InvalidAddress)
      else Ok(s)
  }

  /**
    An address is valid exactly when it has the pattern's shape and every
    part is at most 255 with no leading zero.
   */
  lemma ValidIffPatternAndOctets(s: string)
    ensures IsValidIp(s) <==>
      MatchGroups(s, 3) &&
      var parts := Split(s, '.');
      forall i :: 0 <= i < |parts| ==>
        AllDigits(parts[i]) && (|parts[i]| > 1 ==> parts[i][0] != '0') && DigitsValue(parts[i]) <= 255
  {
    MatchGroupsIffSplit(s, 3);
  }

  /** The address error is raised exactly for the right shape with a part above 255 or with a leading zero. */
  lemma InvalidAddressMeansBadOctet(ip: string)
    requires ValidatePsIp(Some(ip)) == Err(InvalidAddress)
    ensures var parts := Split(Strip(ip), '.');
      |parts| == 4 && (forall i :: 0 <= i < 4 ==> IsDigitGroup(parts[i])) &&
      exists i :: 0 <= i < 4 && (DigitsValue(parts[i]) > 255 || (|parts[i]| > 1 && parts[i][0] == '0'))
  {
    MatchGroupsIffSplit(Strip(ip), 3);
  }

  /** A validated address validates to itself. */
  lemma ValidationIsIdempotent(ip: string)
    requires ValidatePsIp(Some(ip)).Ok?
    ensures ValidatePsIp(Some(ValidatePsIp(Some(ip)).value)) == ValidatePsIp(Some(ip))
  {
    StripIdempotent(ip);
  }

  // ---------------------------------------------------------------- worked examples

  function DigitOf(c: char): int {
    c as int - '0' as int
  }

  /** The value of a part of one to three digits, digit by digit. */
  lemma DigitsValueShort(p: string)
    requires 1 <= |p| <= 3 && AllDigits(p)
    ensures |p| == 1 ==> DigitsValue(p) == DigitOf(p[0])
    ensures |p| == 2 ==> DigitsValue(p) == 10 * DigitOf(p[0]) + DigitOf(p[1])
    ensures |p| == 3 ==> DigitsValue(p) == 100 * DigitOf(p[0]) + 10 * DigitOf(p[1]) + DigitOf(p[2])
  {
    var q := p[..|p| - 1];
    if |p| >= 2 {
      var r := q[..|q| - 1];
      if |p| == 3 {
        assert r[..0] == [];
      } else {
        assert r == [];
      }
    } else {
      assert q == [];
    }
  }

  // Each address below is first shown to be its parts joined by dots, one
  // unfolding of `Join` at a time; `SplitOfJoin` then gives its parts.

  lemma Spells192(a: string, parts: seq<string>)
    requires a == "192.168.1.1" && parts == ["192", "168", "1", "1"]
    ensures a == Join(parts, '.')
  {
    assert Join(parts[3..], '.') == "1";
    assert Join(parts[2..], '.') == "1.1";
    assert Join(parts[1..], '.') == "168.1.1";
  }

  lemma Spells10(a: string, parts: seq<string>)
    requires a == "10.0.0.1" && parts == ["10", "0", "0", "1"]
    ensures a == Join(parts, '.')
  {
    assert Join(parts[3..], '.') == "1";
    assert Join(parts[2..], '.') == "0.1";
    assert Join(parts[1..], '.') == "0.0.1";
  }

  lemma Spells172(a: string, parts: seq<string>)
    requires a == "172.16.254.1" && parts == ["172", "16", "254", "1"]
    ensures a == Join(parts, '.')
  {
    assert Join(parts[3..], '.') == "1";
    assert Join(parts[2..], '.') == "254.1";
    assert Join(parts[1..], '.') == "16.254.1";
  }

  lemma Spells256First(a: string, parts: seq<string>)
    requires a == "256.1.2.3" && parts == ["256", "1", "2", "3"]
    ensures a == Join(parts, '.')
  {
    assert Join(parts[3..], '.') == "3";
    assert Join(parts[2..], '.') == "2.3";
    assert Join(parts[1..], '.') == "1.2.3";
  }

  lemma Spells256Last(a: string, parts: seq<string>)
    requires a == "1.2.3.256" && parts == ["1", "2", "3", "256"]
    ensures a == Join(parts, '.')
  {
    assert Join(parts[3..], '.') == "256";
    assert Join(parts[2..], '.') == "3.256";
    assert Join(parts[1..], '.') == "2.3.256";
  }

  lemma SpellsThreeParts(a: string, parts: seq<string>)
    requires a == "192.168.1" && parts == ["192", "168", "1"]
    ensures a == Join(parts, '.')
  {
    assert Join(parts[2..], '.') == "1";
    assert Join(parts[1..], '.') == "168.1";
  }

  lemma SpellsFiveParts(a: string, parts: seq<string>)
    requires a == "192.168.1.1.1" && parts == ["192", "168", "1", "1", "1"]
    ensures a == Join(parts, '.')
  {
    assert Join(parts[4..], '.') == "1";
    assert Join(parts[3..], '.') == "1.1";
    assert Join(parts[2..], '.') == "1.1.1";
    assert Join(parts[1..], '.') == "168.1.1.1";
  }

  lemma SpellsLetterPart(a: string, parts: seq<string>)
    requires a == "192.168.1.a" && parts == ["192", "168", "1", "a"]
    ensures a == Join(parts, '.')
  {
    assert Join(parts[3..], '.') == "a";
    assert Join(parts[2..], '.') == "1.a";
    assert Join(parts[1..], '.') == "168.1.a";
  }

  lemma SpellsLeadingZero(a: string, parts: seq<string>)
    requires a == "192.168.01.1" && parts == ["192", "168", "01", "1"]
    ensures a == Join(parts, '.')
  {
    assert Join(parts[3..], '.') == "1";
    assert Join(parts[2..], '.') == "01.1";
    assert Join(parts[1..], '.') == "168.01.1";
  }

  lemma Spells256Quad(a: string, parts: seq<string>)
    requires a == "256.256.256.256" && parts == ["256", "256", "256", "256"]
    ensures a == Join(parts, '.')
  {
    assert Join(parts[3..], '.') == "256";
    assert Join(parts[2..], '.') == "256.256";
    assert Join(parts[1..], '.') == "256.256.256";
  }

  /** The parts of "192.168.1.1" are octets. */
  lemma OctetsOf192(parts: seq<string>)
    requires parts == ["192", "168", "1", "1"]
    ensures forall i :: 0 <= i < 4 ==> IsOctet(parts[i])
  {
    DigitsValueShort(parts[0]);
    DigitsValueShort(parts[1]);
  }

  /** The parts of "10.0.0.1" are octets. */
  lemma OctetsOf10(parts: seq<string>)
    requires parts == ["10", "0", "0", "1"]
    ensures forall i :: 0 <= i < 4 ==> IsOctet(parts[i])
  {
    DigitsValueShort(parts[0]);
  }

  /** The parts of "172.16.254.1" are octets. */
  lemma OctetsOf172(parts: seq<string>)
    requires parts == ["172", "16", "254", "1"]
    ensures forall i :: 0 <= i < 4 ==> IsOctet(parts[i])
  {
    DigitsValueShort(parts[0]);
    DigitsValueShort(parts[1]);
    DigitsValueShort(parts[2]);
  }

  /** A private-network address is accepted. */
  lemma Accepts192(a: string)
    requires a == "192.168.1.1"
    ensures IsValidIp(a)
  {
    var parts := ["192", "168", "1", "1"];
    Spells192(a, parts);
    SplitOfJoin(parts, '.');
    OctetsOf192(parts);
  }

  lemma Accepts10(a: string)
    requires a == "10.0.0.1"
    ensures IsValidIp(a)
  {
    var parts := ["10", "0", "0", "1"];
    Spells10(a, parts);
    SplitOfJoin(parts, '.');
    OctetsOf10(parts);
  }

  lemma Accepts172(a: string)
    requires a == "172.16.254.1"
    ensures IsValidIp(a)
  {
    var parts := ["172", "16", "254", "1"];
    Spells172(a, parts);
    SplitOfJoin(parts, '.');
    OctetsOf172(parts);
  }

  /** A part above 255 is refused, at the start of the address. */
  lemma RefusesFirstPartAbove255(a: string)
    requires a == "256.1.2.3"
    ensures !IsValidIp(a)
  {
    var parts := ["256", "1", "2", "3"];
    Spells256First(a, parts);
    SplitOfJoin(parts, '.');
    DigitsValueShort(parts[0]);
  }

  /** A part above 255 is refused, at the end of the address. */
  lemma RefusesLastPartAbove255(a: string)
    requires a == "1.2.3.256"
    ensures !IsValidIp(a)
  {
    var parts := ["1", "2", "3", "256"];
    Spells256Last(a, parts);
    SplitOfJoin(parts, '.');
    DigitsValueShort(parts[3]);
  }

  /** Three parts are refused. */
  lemma RefusesThreeParts(a: string)
    requires a == "192.168.1"
    ensures !IsValidIp(a) && !MatchGroups(a, 3)
  {
    var parts := ["192", "168", "1"];
    SpellsThreeParts(a, parts);
    SplitOfJoin(parts, '.');
    MatchGroupsIffSplit(a, 3);
  }

  /** Five parts are refused. */
  lemma RefusesFiveParts(a: string)
    requires a == "192.168.1.1.1"
    ensures !IsValidIp(a) && !MatchGroups(a, 3)
  {
    var parts := ["192", "168", "1", "1", "1"];
    SpellsFiveParts(a, parts);
    SplitOfJoin(parts, '.');
    MatchGroupsIffSplit(a, 3);
  }

  /** A part that is not a number is refused. */
  lemma RefusesLetterPart(a: string)
    requires a == "192.168.1.a"
    ensures !IsValidIp(a)
  {
    var parts := ["192", "168", "1", "a"];
    SpellsLetterPart(a, parts);
    SplitOfJoin(parts, '.');
    assert !IsDigit(parts[3][0]);
  }

  /** The parts of "192.168.01.1" have the pattern's shape, and the third is not an octet. */
  lemma GroupsOfLeadingZero(parts: seq<string>)
    requires parts == ["192", "168", "01", "1"]
    ensures AllDigitGroups(parts) && !IsOctet(parts[2])
  {
  }

  /** A part with a leading zero is refused, although the pattern accepts it. */
  lemma RefusesLeadingZero(a: string)
    requires a == "192.168.01.1"
    ensures !IsValidIp(a) && MatchGroups(a, 3)
  {
    var parts := ["192", "168", "01", "1"];
    SpellsLeadingZero(a, parts);
    SplitOfJoin(parts, '.');
    GroupsOfLeadingZero(parts);
    MatchGroupsIffSplit(a, 3);
  }

  /** `validate_ps_ip` on a non-empty value whose stripped form is `t`. */
  lemma ValidateByStripped(ip: string, t: string)
    requires ip != "" && Strip(ip) == t
    ensures !MatchGroups(t, 3) ==> ValidatePsIp(Some(ip)) == Err(InvalidFormat)
    ensures MatchGroups(t, 3) && !IsValidIp(t) ==> ValidatePsIp(Some(ip)) == Err(InvalidAddress)
    ensures IsValidIp(t) ==> ValidatePsIp(Some(ip)) == Ok(t)
  {
  }

  /** A string with no space at either end is its own stripped form. */
  lemma AlreadyStripped(t: string)
    requires |t| > 0 && !IsSpace(t[0]) && !IsSpace(t[|t| - 1])
    ensures Strip(t) == t
  {
    StripFindsMiddle(t, 0, |t|);
    assert t[0..|t|] == t;
  }

  /** A string with no space at either end is validated as it stands. */
  lemma KeptAsIs(t: string)
    requires |t| > 0 && !IsSpace(t[0]) && !IsSpace(t[|t| - 1])
    ensures !MatchGroups(t, 3) ==> ValidatePsIp(Some(t)) == Err(InvalidFormat)
    ensures MatchGroups(t, 3) && !IsValidIp(t) ==> ValidatePsIp(Some(t)) == Err(InvalidAddress)
    ensures IsValidIp(t) ==> ValidatePsIp(Some(t)) == Ok(t)
  {
    AlreadyStripped(t);
    ValidateByStripped(t, t);
  }

  /** A string the pattern matches starts with a digit. */
  lemma MatchGroupsStart(s: string, k: nat)
    requires MatchGroups(s, k)
    ensures |s| > 0 && IsDigit(s[0])
  {
    var run := s[..DigitRun(s)];
    assert IsDigit(run[0]);
  }

  /** A string the pattern matches ends with a digit. */
  lemma {:induction false} MatchGroupsEnd(s: string, k: nat)
    requires MatchGroups(s, k)
    ensures |s| > 0 && IsDigit(s[|s| - 1])
    decreases k
  {
    var n := DigitRun(s);
    if k == 0 {
      var run := s[..n];
      assert IsDigit(run[n - 1]);
    } else {
      var tail := s[n + 1..];
      MatchGroupsEnd(tail, k - 1);
      assert s[|s| - 1] == tail[|tail| - 1];
    }
  }

  /** A string the pattern matches has nothing to strip. */
  lemma MatchedIsStripped(t: string)
    requires MatchGroups(t, 3)
    ensures Strip(t) == t
  {
    MatchGroupsStart(t, 3);
    MatchGroupsEnd(t, 3);
    AlreadyStripped(t);
  }

  /** Two spaces on each side are stripped off. */
  lemma PaddedStripsTo(plain: string, padded: string)
    requires plain == "192.168.1.1" && padded == "  192.168.1.1  "
    ensures Strip(padded) == plain
  {
    var spaces := "  ";
    PaddedWith(plain, padded, spaces);
    StripRemovesPadding(plain, spaces, spaces);
  }

  lemma PaddedWith(plain: string, padded: string, spaces: string)
    requires plain == "192.168.1.1" && padded == "  192.168.1.1  " && spaces == "  "
    ensures padded == spaces + plain + spaces
  {
  }

  /** A valid address comes back as it is. */
  lemma ValidationReturnsAddress(plain: string)
    requires plain == "192.168.1.1"
    ensures ValidatePsIp(Some(plain)) == Ok(plain)
  {
    Accepts192(plain);
    KeptAsIs(plain);
  }

  /** A valid address with surrounding spaces comes back stripped. */
  lemma ValidationStripsAddress(plain: string, padded: string)
    requires plain == "192.168.1.1" && padded == "  192.168.1.1  "
    ensures ValidatePsIp(Some(padded)) == Ok(plain)
  {
    Accepts192(plain);
    PaddedStripsTo(plain, padded);
    ValidateByStripped(padded, plain);
  }

  /** An empty or missing value raises the required-value error. */
  lemma ValidationRequiresValue()
    ensures ValidatePsIp(Some("")) == Err(Required) && ValidatePsIp(None) == Err(Required)
  {
  }

  /** A word fails the pattern and raises the format error. */
  lemma ValidationRefusesWord(word: string)
    requires word == "invalid"
    ensures ValidatePsIp(Some(word)) == Err(InvalidFormat)
  {
    KeptAsIs(word);
  }

  /** Three parts and five parts fail the pattern and raise the format error. */
  lemma ValidationRefusesPartCount(short: string, long: string)
    requires short == "192.168.1" && long == "192.168.1.1.1"
    ensures ValidatePsIp(Some(short)) == Err(InvalidFormat)
    ensures ValidatePsIp(Some(long)) == Err(InvalidFormat)
  {
    RefusesThreeParts(short);
    KeptAsIs(short);
    RefusesFiveParts(long);
    KeptAsIs(long);
  }

  /** The parts of "256.256.256.256" have the pattern's shape, and none is an octet. */
  lemma GroupsOf256Quad(parts: seq<string>)
    requires parts == ["256", "256", "256", "256"]
    ensures AllDigitGroups(parts) && !IsOctet(parts[0])
  {
    DigitsValueShort(parts[0]);
  }

  /** Four parts of 256 have the pattern's shape but are not an address. */
  lemma QuadOf256(high: string)
    requires high == "256.256.256.256"
    ensures MatchGroups(high, 3) && !IsValidIp(high)
  {
    var parts := ["256", "256", "256", "256"];
    Spells256Quad(high, parts);
    SplitOfJoin(parts, '.');
    GroupsOf256Quad(parts);
    MatchGroupsIffSplit(high, 3);
  }

  /** Four parts of 256 match the pattern but raise the address error. */
  lemma ValidationRefusesAddress(high: string)
    requires high == "256.256.256.256"
    ensures ValidatePsIp(Some(high)) == Err(InvalidAddress)
  {
    QuadOf256(high);
    MatchedIsStripped(high);
    ValidateByStripped(high, high);
  }
}
