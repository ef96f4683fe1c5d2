/**
 * The custom form validators (Ext.form.field.VTypes): each takes the raw
 * text of a field and says whether it is acceptable.  Every regular
 * expression is written out as a matcher over the characters of the text,
 * following the structure of the expression; each is then related to a
 * plain description of the strings it accepts.
 *
 * The IP4_match, IP4_cidr_match, IP6_match, IP6_cidr_match and IP64_match
 * expressions are not part of this model: they are parameters.
 */
module VTypes {
  import opened Js

  // ---------------------------------------------------------------------
  // IP addresses

  /** IPAddress, IP6Address and IP64Address test the text against the given address expression. */
  function AddressMatches(ipMatch: string -> bool, v: string): bool
  {
    ipMatch(v)
  }

  /**
   * A CIDR validator: the address expression must match, and the prefix
   * length it captures, compared as a number, must lie in lo..hi.
   * `cidrMatch` gives the captured prefix text when the expression matches.
   */
  function CidrInRange(cidrMatch: string -> Option<string>, v: string, lo: int, hi: int): bool
  {
    var m := cidrMatch(v);
    m.Some? && var n := StrToNumber(m.value); n.Some? && lo <= n.value && n.value <= hi
  }

  /** IPCIDRAddress: an IPv4 prefix of 8 to 32 bits. */
  function IPCIDRAddress(cidrMatch: string -> Option<string>, v: string): bool
  {
    CidrInRange(cidrMatch, v, 8, 32)
  }

  /** IP6CIDRAddress: an IPv6 prefix of 8 to 120 bits. */
  function IP6CIDRAddress(cidrMatch: string -> Option<string>, v: string): bool
  {
    CidrInRange(cidrMatch, v, 8, 120)
  }

  /** IP6PrefixLength: the text, as a number, lies in 0..128. */
  function IP6PrefixLength(v: string): bool
  {
    var n := StrToNumber(v);
    n.Some? && 0 <= n.value && n.value <= 128
  }

  /** With a captured prefix written in decimal, the CIDR validators accept exactly the documented ranges. */
  lemma CidrPrefixRanges(cidrMatch: string -> Option<string>, v: string, k: nat)
    requires cidrMatch(v) == Some(NatToString(k))
    ensures IPCIDRAddress(cidrMatch, v) <==> 8 <= k <= 32
    ensures IP6CIDRAddress(cidrMatch, v) <==> 8 <= k <= 120
  {
    StrToNumberOfNatString(k);
  }

  /** A CIDR text whose address part does not match is refused whatever its prefix. */
  lemma CidrNeedsMatch(cidrMatch: string -> Option<string>, v: string)
    requires cidrMatch(v).None?
    ensures !IPCIDRAddress(cidrMatch, v) && !IP6CIDRAddress(cidrMatch, v)
  {
  }

  /** IP6PrefixLength on digits typed through its mask: the decimal value is in 0..128. */
  lemma PrefixLengthOfDigits(v: string)
    requires v != [] && AllDigits(v)
    ensures IP6PrefixLength(v) <==> DecimalValue(v) <= 128
  {
    DigitsToNumber(v);
  }

  // ---------------------------------------------------------------------
  // MAC addresses

  /** The expression ([a-fA-F0-9]{2}:){n}[a-fA-F0-9]{2}, matched against the whole of s. */
  function MacGroups(s: string, n: nat): bool
    decreases n
  {
    if n == 0 then |s| == 2 && IsHexDigit(s[0]) && IsHexDigit(s[1])
    else |s| >= 3 && IsHexDigit(s[0]) && IsHexDigit(s[1]) && s[2] == ':' && MacGroups(s[3..], n - 1)
  }

  /** MacAddress */
  function MacAddress(v: string): bool
  {
    MacGroups(v, 5)
  }

  /** Where a character of the text sits: every third one is a colon, the others hex digits. */
  predicate MacShapeOf(s: string, len: nat)
  {
    |s| == len && forall i :: 0 <= i < |s| ==> if i % 3 == 2 then s[i] == ':' else IsHexDigit(s[i])
  }

  lemma {:induction false} MacGroupsShape(s: string, n: nat)
    ensures MacGroups(s, n) <==> MacShapeOf(s, 3 * n + 2)
    decreases n
  {
    if n > 0 {
      if |s| >= 3 {
        MacGroupsShape(s[3..], n - 1);
        if MacShapeOf(s, 3 * n + 2) {
          forall i | 0 <= i < |s[3..]|
            ensures if i % 3 == 2 then s[3..][i] == ':' else IsHexDigit(s[3..][i])
          {
            assert s[3..][i] == s[i + 3];
            assert (i + 3) % 3 == i % 3;
          }
        }
        if MacGroups(s, n) {
          forall i | 0 <= i < |s|
            ensures if i % 3 == 2 then s[i] == ':' else IsHexDigit(s[i])
          {
            if i >= 3 {
              assert s[i] == s[3..][i - 3];
              assert (i - 3) % 3 == i % 3;
            }
          }
        }
      } else {
        assert !MacShapeOf(s, 3 * n + 2);
      }
    }
  }

  /** A MAC address is six two-hex-digit groups separated by colons, in either case. */
  lemma MacAddressShape(v: string)
    ensures MacAddress(v) <==> MacShapeOf(v, 17)
  {
    MacGroupsShape(v, 5);
  }

  /** The keystroke filter of the MAC address field. */
  predicate MacAddressMask(c: char)
  {
    IsHexDigit(c) || c == ':'
  }

  /** Every accepted MAC address can be typed through the field's keystroke filter. */
  lemma MacAddressTypeable(v: string)
    requires MacAddress(v)
    ensures forall i :: 0 <= i < |v| ==> MacAddressMask(v[i])
  {
    MacAddressShape(v);
  }

  // ---------------------------------------------------------------------
  // Interface names

  /** The text is the prefix followed by one to four decimal digits. */
  function PrefixedNumber(prefix: string, v: string): bool
  {
    IsPrefix(prefix, v) && 1 <= |v| - |prefix| <= 4 && AllDigits(v[|prefix|..])
  }

  /** BridgeName: vmbrN */
  function BridgeName(v: string): bool
  {
    PrefixedNumber("vmbr", v)
  }

  /** BondName: bondN */
  function BondName(v: string): bool
  {
    PrefixedNumber("bond", v)
  }

  lemma {:induction false} DecimalValueBound(s: string)
    requires AllDigits(s)
    ensures DecimalValue(s) < Pow10(|s|)
    decreases |s|
  {
    if s != [] {
      DecimalValueBound(s[..|s| - 1]);
    }
  }

  lemma {:induction false} NatToStringLong(n: nat, k: nat)
    requires n >= Pow10(k)
    ensures |NatToString(n)| > k
    decreases k
  {
    if k > 0 {
      NatToStringLong(n / 10, k - 1);
    }
  }

  /** The number written after the prefix of an accepted name is at most 9999, as the field's hint says. */
  lemma PrefixedNumberBound(prefix: string, v: string)
    requires PrefixedNumber(prefix, v)
    ensures DecimalValue(v[|prefix|..]) <= 9999
  {
    var d := v[|prefix|..];
    DecimalValueBound(d);
    assert Pow10(|d|) <= Pow10(4) by {
      if |d| < 4 {
        assert Pow10(|d|) <= 1000;
      }
    }
  }

  /** vmbrN, with N written the usual way, is a bridge name exactly when N <= 9999; likewise bondN. */
  lemma PrefixedNumberOfNat(prefix: string, n: nat)
    ensures PrefixedNumber(prefix, prefix + NatToString(n)) <==> n <= 9999
  {
    var v := prefix + NatToString(n);
    assert v[|prefix|..] == NatToString(n);
    assert v[..|prefix|] == prefix;
    if n <= 9999 {
      NatToStringLength(n, 4);
    } else {
      NatToStringLong(n, 4);
    }
  }

  /** A character InterfaceName allows after the first. */
  predicate IsIfaceChar(c: char)
  {
    IsLowerAlpha(c) || IsDigit(c) || c == '_'
  }

  /** InterfaceName: a lower-case letter followed by 1 to 20 of [a-z0-9_]. */
  function InterfaceName(v: string): bool
  {
    2 <= |v| <= 21 && IsLowerAlpha(v[0]) && forall i :: 1 <= i < |v| ==> IsIfaceChar(v[i])
  }

  // ---------------------------------------------------------------------
  // Identifiers

  /** A character StorageId allows between the first and the last (the expression is case-insensitive). */
  predicate IsStorageChar(c: char)
  {
    IsAlnum(c) || c == '-' || c == '_' || c == '.'
  }

  /** The tail [a-z0-9\-\_\.]*[a-z0-9]$ of the StorageId expression, with the backtracking of the star. */
  function StorageTail(s: string): bool
    decreases |s|
  {
    (|s| == 1 && IsAlnum(s[0])) || (|s| >= 1 && IsStorageChar(s[0]) && StorageTail(s[1..]))
  }

  /** StorageId */
  function StorageId(v: string): bool
  {
    |v| >= 1 && IsAlpha(v[0]) && StorageTail(v[1..])
  }

  /** The plain description of a storage id. */
  predicate StorageIdShape(v: string)
  {
    && |v| >= 2 && IsAlpha(v[0]) && IsAlnum(v[|v| - 1])
    && forall i :: 0 < i < |v| - 1 ==> IsStorageChar(v[i])
  }

  lemma {:induction false} StorageTailShape(s: string)
    ensures StorageTail(s) <==> |s| >= 1 && IsAlnum(s[|s| - 1]) && forall i :: 0 <= i < |s| - 1 ==> IsStorageChar(s[i])
    decreases |s|
  {
    if |s| >= 2 {
      StorageTailShape(s[1..]);
      assert s[1..][|s| - 2] == s[|s| - 1];
      assert forall i :: 1 <= i < |s| - 1 ==> s[i] == s[1..][i - 1];
    }
  }

  /** A storage id starts with a letter, ends with a letter or digit and is at least two characters long. */
  lemma StorageIdIsShape(v: string)
    ensures StorageId(v) <==> StorageIdShape(v)
  {
    if |v| >= 1 {
      StorageTailShape(v[1..]);
      assert forall i :: 0 < i < |v| - 1 ==> v[i] == v[1..][i - 1];
      if |v| >= 2 {
        assert v[1..][|v| - 2] == v[|v| - 1];
      }
    }
  }

  /** ConfigId: a letter then at least one of [A-Za-z0-9_]. */
  function ConfigId(v: string): bool
  {
    |v| >= 2 && IsAlpha(v[0]) && forall i :: 1 <= i < |v| ==> IsWordChar(v[i])
  }

  /** HttpProxy: the text starts with http:// and holds no line terminator (`.` does not match one). */
  function HttpProxy(v: string): bool
  {
    IsPrefix("http://", v) && forall i :: 7 <= i < |v| ==> !IsLineTerminator(v[i])
  }

  // ---------------------------------------------------------------------
  // Start date

  /**
   * \d{lo,hi} followed by sep: the separator is not a digit, so only the
   * whole run of digits can match, and the run's length decides.  Gives
   * the text after the separator.
   */
  function DigitsThen(s: string, lo: nat, hi: nat, sep: char): Option<string>
  {
    var k := DigitRun(s);
    if lo <= k <= hi && k < |s| && s[k] == sep then Some(s[k + 1..]) else None
  }

  /** \d{lo,hi}$ */
  function DigitsEnd(s: string, lo: nat, hi: nat): bool
  {
    var k := DigitRun(s);
    lo <= k <= hi && k == |s|
  }

  /** T\d{1,2}:\d{1,2}:\d{1,2}$ */
  function TimeMatch(s: string): bool
  {
    |s| >= 1 && s[0] == 'T' &&
    var r1 := DigitsThen(s[1..], 1, 2, ':');
    r1.Some? && var r2 := DigitsThen(r1.value, 1, 2, ':');
    r2.Some? && DigitsEnd(r2.value, 1, 2)
  }

  /** \d{1,2}(T\d{1,2}:\d{1,2}:\d{1,2})?$ */
  function DayMatch(s: string): bool
  {
    var k := DigitRun(s);
    1 <= k <= 2 && (k == |s| || TimeMatch(s[k..]))
  }

  /** \d{4}-\d{1,2}-\d{1,2}(T\d{1,2}:\d{1,2}:\d{1,2})?$ */
  function DateMatch(v: string): bool
  {
    var r1 := DigitsThen(v, 4, 4, '-');
    r1.Some? && var r2 := DigitsThen(r1.value, 1, 2, '-');
    r2.Some? && DayMatch(r2.value)
  }

  /** QemuStartDate */
  function QemuStartDate(v: string): bool
  {
    v == "now" || DateMatch(v)
  }

  lemma DigitsThenOf(x: string, sep: char, rest: string, lo: nat, hi: nat)
    requires AllDigits(x) && !IsDigit(sep)
    ensures DigitsThen(x + [sep] + rest, lo, hi, sep) == if lo <= |x| <= hi then Some(rest) else None
  {
    var s := x + [sep] + rest;
    assert s == x + ([sep] + rest);
    DigitRunOf(x, [sep] + rest);
    assert s[|x|] == sep && s[|x| + 1..] == rest;
  }

  lemma DigitsEndOf(x: string, lo: nat, hi: nat)
    requires AllDigits(x)
    ensures DigitsEnd(x, lo, hi) <==> lo <= |x| <= hi
  {
    DigitRunOf(x, []);
    assert x + [] == x;
  }

  /** h:m:s after a 'T', as digit strings: accepted exactly when each part has one or two digits. */
  lemma TimeParts(h: string, m: string, s: string)
    requires AllDigits(h) && AllDigits(m) && AllDigits(s)
    ensures TimeMatch("T" + h + ":" + m + ":" + s) <==> (1 <= |h| <= 2 && 1 <= |m| <= 2 && 1 <= |s| <= 2)
  {
    var v := "T" + h + ":" + m + ":" + s;
    assert v[1..] == h + [':'] + (m + ":" + s);
    DigitsThenOf(h, ':', m + ":" + s, 1, 2);
    assert m + ":" + s == m + [':'] + s;
    DigitsThenOf(m, ':', s, 1, 2);
    DigitsEndOf(s, 1, 2);
  }

  lemma DayParts(d: string, suffix: string)
    requires AllDigits(d)
    requires suffix == "" || suffix[0] == 'T'
    ensures DayMatch(d + suffix) <==> 1 <= |d| <= 2 && (suffix == "" || TimeMatch(suffix))
  {
    DigitRunOf(d, suffix);
    assert (d + suffix)[|d|..] == suffix;
  }

  /** y-m-d followed by a suffix that is empty or starts with 'T'. */
  lemma DateParts(y: string, m: string, d: string, suffix: string)
    requires AllDigits(y) && AllDigits(m) && AllDigits(d)
    requires suffix == "" || suffix[0] == 'T'
    ensures DateMatch(y + "-" + m + "-" + d + suffix)
            <==> (|y| == 4 && 1 <= |m| <= 2 && 1 <= |d| <= 2 && (suffix == "" || TimeMatch(suffix)))
  {
    assert y + "-" + m + "-" + d + suffix == y + ['-'] + (m + ['-'] + (d + suffix));
    DigitsThenOf(y, '-', m + ['-'] + (d + suffix), 4, 4);
    DigitsThenOf(m, '-', d + suffix, 1, 2);
    DayParts(d, suffix);
  }

  /**
   * QemuStartDate accepts "now", and a date written with digit parts
   * exactly when the year has four digits and month and day one or two,
   * optionally followed by a time whose parts have one or two digits.
   */
  lemma StartDateForms(y: string, m: string, d: string, h: string, mi: string, s: string)
    requires AllDigits(y) && AllDigits(m) && AllDigits(d) && AllDigits(h) && AllDigits(mi) && AllDigits(s)
    ensures QemuStartDate("now")
    ensures QemuStartDate(y + "-" + m + "-" + d) <==> (|y| == 4 && 1 <= |m| <= 2 && 1 <= |d| <= 2)
    ensures QemuStartDate(y + "-" + m + "-" + d + ("T" + h + ":" + mi + ":" + s))
            <==> (|y| == 4 && 1 <= |m| <= 2 && 1 <= |d| <= 2 && 1 <= |h| <= 2 && 1 <= |mi| <= 2 && 1 <= |s| <= 2)
  {
    DateParts(y, m, d, "");
    assert y + "-" + m + "-" + d + "" == y + "-" + m + "-" + d;
    var t := "T" + h + ":" + mi + ":" + s;
    assert (y + "-" + m + "-" + d)[0] != 'n';
    assert (y + "-" + m + "-" + d + t)[0] != 'n';
    DateParts(y, m, d, t);
    TimeParts(h, mi, s);
  }

  // ---------------------------------------------------------------------
  // DNS names and mail addresses

  /** [a-zA-Z0-9]([a-zA-Z0-9\-]*[a-zA-Z0-9])? */
  predicate IsLabel(s: string)
  {
    |s| >= 1 && IsAlnum(s[0]) && IsAlnum(s[|s| - 1]) && forall i :: 0 <= i < |s| ==> IsAlnum(s[i]) || s[i] == '-'
  }

  /**
   * DnsName: ((label)\.)*(label)$.  A label holds no dot, so the groups of
   * the expression are exactly the dot-separated pieces of the text.
   */
  function DnsName(v: string): bool
  {
    var pieces := Split(v, '.');
    forall i :: 0 <= i < |pieces| ==> IsLabel(pieces[i])
  }

  /** Labels joined with dots make a DNS name. */
  lemma DnsNameOfLabels(labels: seq<string>)
    requires |labels| >= 1 && forall i :: 0 <= i < |labels| ==> IsLabel(labels[i])
    ensures DnsName(Join(labels, "."))
  {
    assert forall i :: 0 <= i < |labels| ==> '.' !in labels[i];
    SplitJoin(labels, '.');
  }

  /**
   * A DNS name is its labels joined with dots: no label is empty, and a
   * hyphen never starts or ends one.
   */
  lemma DnsNameLabels(v: string)
    requires DnsName(v)
    ensures var pieces := Split(v, '.');
            && Join(pieces, ".") == v
            && forall i :: 0 <= i < |pieces| ==> pieces[i] != "" && pieces[i][0] != '-' && pieces[i][|pieces[i]| - 1] != '-'
  {
    JoinSplit(v, '.');
  }

  /** [\-+.] */
  predicate IsMailSep(c: char)
  {
    c == '-' || c == '+' || c == '.'
  }

  /** The length of the run of \w characters that starts s. */
  function WordRun(s: string): (k: nat)
    ensures k <= |s| && (k == |s| || !IsWordChar(s[k]))
    ensures forall i :: 0 <= i < k ==> IsWordChar(s[i])
  {
    if s != [] && IsWordChar(s[0]) then 1 + WordRun(s[1..]) else 0
  }

  /** (\w+)([\-+.][\w]+)*, matched against the whole of s; the separators are not \w, so each \w+ takes a whole run. */
  function LocalPart(s: string): bool
    decreases |s|
  {
    var k := WordRun(s);
    k >= 1 && (k == |s| || (IsMailSep(s[k]) && LocalPart(s[k + 1..])))
  }

  /** \w[\-\w]* */
  predicate IsDomainLabel(s: string)
  {
    |s| >= 1 && IsWordChar(s[0]) && forall i :: 0 <= i < |s| ==> IsWordChar(s[i]) || s[i] == '-'
  }

  /** (\w[\-\w]*\.){1,5}([A-Za-z]){2,63}$: one to five labels, each ended by a dot, then 2 to 63 letters. */
  function DomainPart(s: string): bool
  {
    var pieces := Split(s, '.');
    var tld := pieces[|pieces| - 1];
    && 2 <= |pieces| <= 6
    && (forall i :: 0 <= i < |pieces| - 1 ==> IsDomainLabel(pieces[i]))
    && 2 <= |tld| <= 63 && forall i :: 0 <= i < |tld| ==> IsAlpha(tld[i])
  }

  /** pveMail: neither part can hold an '@', so the text splits at its only '@'. */
  function PveMail(v: string): bool
  {
    var parts := Split(v, '@');
    |parts| == 2 && LocalPart(parts[0]) && DomainPart(parts[1])
  }

  /** The local part of a mail address starts and ends with a word character and never has two separators in a row. */
  lemma {:induction false} LocalPartShape(s: string)
    requires LocalPart(s)
    ensures |s| >= 1 && IsWordChar(s[0]) && IsWordChar(s[|s| - 1])
    ensures forall i :: 0 <= i < |s| ==> IsWordChar(s[i]) || IsMailSep(s[i])
    ensures forall i :: 0 <= i < |s| - 1 && IsMailSep(s[i]) ==> IsWordChar(s[i + 1])
    decreases |s|
  {
    var k := WordRun(s);
    if k < |s| {
      var t := s[k + 1..];
      LocalPartShape(t);
      assert forall i :: k + 1 <= i < |s| ==> s[i] == t[i - k - 1];
      assert s[|s| - 1] == t[|t| - 1];
    }
  }

  /** An accepted mail address has exactly one '@', and its top-level domain is letters only. */
  lemma PveMailShape(v: string)
    requires PveMail(v)
    ensures var parts := Split(v, '@');
            && Join(parts, "@") == v
            && LocalPart(parts[0])
            && var pieces := Split(parts[1], '.');
               2 <= |pieces| <= 6 && |pieces[|pieces| - 1]| >= 2
  {
    JoinSplit(v, '@');
  }
}
