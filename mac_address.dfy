/** `is_valid_mac_address` of the configuration flow, and the upper-casing
    `validate_input` applies before it. */
module MacAddress {
  import opened Base

  /** `s.split(sep)`: the text between separators, empty pieces included. */
  function Split(s: string, sep: char): (parts: seq<string>)
    ensures |parts| >= 1
    decreases |s|
  {
    if s == [] then [""]
    else if s[0] == sep then [""] + Split(s[1..], sep)
    else
      var rest := Split(s[1..], sep);
      [[s[0]] + rest[0]] + rest[1..]
  }

  /** `sep.join(parts)`. */
  function Join(parts: seq<string>, sep: char): string
    requires |parts| >= 1
    decreases |parts|
  {
    if |parts| == 1 then parts[0] else parts[0] + [sep] + Join(parts[1..], sep)
  }

  lemma {:induction false} SplitHasNoSeparator(s: string, sep: char)
    ensures forall i :: 0 <= i < |Split(s, sep)| ==> sep !in Split(s, sep)[i]
    decreases |s|
  {
    if s != [] {
      SplitHasNoSeparator(s[1..], sep);
    }
  }

  /** Joining the pieces of a split gives the text back. */
  lemma {:induction false} JoinSplit(s: string, sep: char)
    ensures Join(Split(s, sep), sep) == s
    decreases |s|
  {
    if s != [] {
      var rest := Split(s[1..], sep);
      JoinSplit(s[1..], sep);
      if s[0] == sep {
        assert ([""] + rest)[1..] == rest;
        assert s == [sep] + s[1..];
      } else {
        var parts := [[s[0]] + rest[0]] + rest[1..];
        if |rest| == 1 {
          assert s == [s[0]] + s[1..];
        } else {
          assert parts[1..] == rest[1..];
          assert Join(rest, sep) == rest[0] + [sep] + Join(rest[1..], sep);
          assert s == [s[0]] + s[1..];
        }
      }
    }
  }

  /** Splitting `p + t`, where `p` holds no separator, puts `p` in front of
      the first piece of `t`. */
  lemma {:induction false} SplitPrefix(p: string, t: string, sep: char)
    requires sep !in p
    ensures Split(p + t, sep) == [p + Split(t, sep)[0]] + Split(t, sep)[1..]
    decreases |p|
  {
    if p == [] {
      var pieces := Split(t, sep);
      assert p + t == t && p + pieces[0] == pieces[0];
      assert pieces == [pieces[0]] + pieces[1..];
    } else {
      assert (p + t)[0] == p[0];
      assert (p + t)[1..] == p[1..] + t;
      SplitPrefix(p[1..], t, sep);
      assert [p[0]] + (p[1..] + Split(t, sep)[0]) == p + Split(t, sep)[0];
    }
  }

  /** Splitting a join of separator-free pieces gives the pieces back. */
  lemma {:induction false} SplitJoin(parts: seq<string>, sep: char)
    requires |parts| >= 1
    requires forall i :: 0 <= i < |parts| ==> sep !in parts[i]
    ensures Split(Join(parts, sep), sep) == parts
    decreases |parts|
  {
    if |parts| == 1 {
      SplitPrefix(parts[0], [], sep);
      assert parts[0] + [] == parts[0];
    } else {
      var u := Join(parts[1..], sep);
      SplitJoin(parts[1..], sep);
      assert parts[0] + [sep] + u == parts[0] + ([sep] + u);
      SplitPrefix(parts[0], [sep] + u, sep);
      assert ([sep] + u)[1..] == u;
      assert Split([sep] + u, sep) == [""] + parts[1..];
      assert Join(parts, sep) == parts[0] + ([sep] + u);
      assert parts[0] + "" == parts[0];
      assert ([""] + parts[1..])[0] == "" && ([""] + parts[1..])[1..] == parts[1..];
      assert parts == [parts[0]] + parts[1..];
    }
  }

  /** A join of pieces of two characters each is three characters per piece, less one. */
  lemma {:induction false} JoinLength(parts: seq<string>, sep: char)
    requires |parts| >= 1
    requires forall i :: 0 <= i < |parts| ==> |parts[i]| == 2
    ensures |Join(parts, sep)| == 3 * |parts| - 1
    decreases |parts|
  {
    if |parts| > 1 {
      JoinLength(parts[1..], sep);
    }
  }

  predicate IsHexDigit(c: char) {
    ('0' <= c <= '9') || ('a' <= c <= 'f') || ('A' <= c <= 'F')
  }

  /** The ASCII characters `int()` strips as whitespace around the digits of
      an ASCII string: tab to carriage return, and space. The separators
      0x1C-0x1F, which `str.isspace` accepts, are not stripped. */
  predicate IsSpace(c: char) {
    c == ' ' || (9 <= c as int <= 13)
  }

  predicate IsSign(c: char) {
    c == '+' || c == '-'
  }

  /** Whether `int(part, 16)` accepts a two-character ASCII `part`: two hex
      digits, or one hex digit after a sign or whitespace, or one hex digit
      before whitespace. */
  predicate ParsesAsHex(part: string)
    requires |part| == 2
  {
    || (IsHexDigit(part[0]) && IsHexDigit(part[1]))
    || ((IsSign(part[0]) || IsSpace(part[0])) && IsHexDigit(part[1]))
    || (IsHexDigit(part[0]) && IsSpace(part[1]))
  }

  /** A group led by one of the separators 0x1C-0x1F is rejected even before
      a hex digit, while one led by a tab or a space is accepted. */
  lemma SeparatorNotStripped(h: char)
    requires IsHexDigit(h)
    ensures forall c :: 0x1C <= c as int <= 0x1F ==> !ParsesAsHex([c, h])
    ensures ParsesAsHex(['\t', h]) && ParsesAsHex([' ', h])
  {
  }

  /** `is_valid_mac_address`: six ':'-separated groups of two characters,
      each accepted by `int(group, 16)`. */
  predicate IsValidMacAddress(address: string) {
    var parts := Split(address, ':');
    |parts| == 6 && forall i :: 0 <= i < 6 ==> |parts[i]| == 2 && ParsesAsHex(parts[i])
  }

  /** Anything that does not split into six groups is rejected, the empty
      string included. */
  lemma NotSixGroupsRejected(parts: seq<string>)
    requires |parts| >= 1 && |parts| != 6
    requires forall i :: 0 <= i < |parts| ==> ':' !in parts[i]
    ensures !IsValidMacAddress(Join(parts, ':'))
    ensures !IsValidMacAddress("")
  {
    SplitJoin(parts, ':');
  }

  /** A group of any length other than two is rejected. */
  lemma WrongGroupLengthRejected(parts: seq<string>, k: nat)
    requires |parts| == 6 && k < 6 && |parts[k]| != 2
    requires forall i :: 0 <= i < |parts| ==> ':' !in parts[i]
    ensures !IsValidMacAddress(Join(parts, ':'))
  {
    SplitJoin(parts, ':');
  }

  /** Six pairs of hex digits joined by ':' are always accepted. */
  lemma HexPairsAccepted(parts: seq<string>)
    requires |parts| == 6
    requires forall i :: 0 <= i < 6 ==> |parts[i]| == 2 && IsHexDigit(parts[i][0]) && IsHexDigit(parts[i][1])
    ensures IsValidMacAddress(Join(parts, ':'))
  {
    SplitJoin(parts, ':');
  }

  /** Every accepted address is 17 characters long. */
  lemma ValidLength(address: string)
    requires IsValidMacAddress(address)
    ensures |address| == 17
  {
    JoinSplit(address, ':');
    JoinLength(Split(address, ':'), ':');
  }

  /** ASCII upper-casing, the part of `str.upper` that can matter here. */
  function UpperChar(c: char): char {
    if 'a' <= c <= 'z' then (c as int - 32) as char else c
  }

  function Upper(s: string): (r: string)
    ensures |r| == |s| && forall i :: 0 <= i < |s| ==> r[i] == UpperChar(s[i])
    decreases |s|
  {
    if s == [] then [] else [UpperChar(s[0])] + Upper(s[1..])
  }

  /** Every piece upper-cased. */
  function UpperAll(parts: seq<string>): (r: seq<string>)
    ensures |r| == |parts| && forall i :: 0 <= i < |parts| ==> r[i] == Upper(parts[i])
    decreases |parts|
  {
    if parts == [] then [] else [Upper(parts[0])] + UpperAll(parts[1..])
  }

  /** Upper-casing commutes with splitting on ':'. */
  lemma {:induction false} SplitUpper(s: string)
    ensures Split(Upper(s), ':') == UpperAll(Split(s, ':'))
    decreases |s|
  {
    if s != [] {
      SplitUpper(s[1..]);
      var u := Upper(s);
      assert u[0] == UpperChar(s[0]) && u[1..] == Upper(s[1..]);
      var rest := Split(s[1..], ':');
      if s[0] == ':' {
        assert Split(s, ':') == [""] + rest;
        assert Split(u, ':') == [""] + UpperAll(rest);
      } else {
        var head := [s[0]] + rest[0];
        assert Split(s, ':') == [head] + rest[1..];
        assert Upper(head) == [u[0]] + Upper(rest[0]);
        assert UpperAll([head] + rest[1..]) == [Upper(head)] + UpperAll(rest)[1..];
      }
    }
  }

  /** Upper-casing keeps a character's class: hex digit, sign, whitespace. */
  lemma UpperCharClass(c: char)
    ensures IsHexDigit(UpperChar(c)) == IsHexDigit(c)
    ensures IsSign(UpperChar(c)) == IsSign(c)
    ensures IsSpace(UpperChar(c)) == IsSpace(c)
  {
  }

  lemma ParsesAsHexUpper(part: string)
    requires |part| == 2
    ensures ParsesAsHex(Upper(part)) == ParsesAsHex(part)
  {
    var u := Upper(part);
    assert u[0] == UpperChar(part[0]) && u[1] == UpperChar(part[1]);
    UpperCharClass(part[0]);
    UpperCharClass(part[1]);
  }

  /** Upper-casing never changes validity. */
  lemma ValidUpper(address: string)
    ensures IsValidMacAddress(Upper(address)) == IsValidMacAddress(address)
  {
    SplitUpper(address);
    var parts := Split(address, ':');
    if |parts| == 6 {
      forall i | 0 <= i < 6
        ensures (|Split(Upper(address), ':')[i]| == 2 && ParsesAsHex(Split(Upper(address), ':')[i]))
            == (|parts[i]| == 2 && ParsesAsHex(parts[i]))
      {
        if |parts[i]| == 2 {
          ParsesAsHexUpper(parts[i]);
        }
      }
    }
  }

  /** The address check of `validate_input`: upper-case, then reject an
      invalid address before any device is constructed. */
  function ValidateAddress(address: string): Option<string> {
    var normalized := Upper(address);
    if IsValidMacAddress(normalized) then Some(normalized) else None
  }

  /** `validate_input` accepts exactly the valid addresses, in either case,
      and passes them on upper-cased and 17 characters long. */
  lemma ValidateAddressExactly(address: string)
    ensures ValidateAddress(address).Some? <==> IsValidMacAddress(address)
    ensures ValidateAddress(address).Some? ==>
      var v := ValidateAddress(address).value;
      v == Upper(address) && |v| == 17 && forall i :: 0 <= i < |v| ==> !('a' <= v[i] <= 'z')
  {
    ValidUpper(address);
    if IsValidMacAddress(address) {
      ValidLength(Upper(address));
    }
  }
}
