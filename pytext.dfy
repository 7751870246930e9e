/**
  The two bits of Python text handling the discovery code relies on:
  `str.split(':')` (to pull host and port out of a "host:port" entry, and the
  tuple unpacking `host, port = ...` after it) and `int(...)` (to read a port).
 */
module PyText {
  import opened Wrappers

  /** Python's `s.split(sep)` for a one-character separator: the pieces between
      the separators, in order; there is always at least one piece. */
  function Split(s: string, sep: char): (parts: seq<string>)
    ensures |parts| >= 1
    decreases |s|
  {
    if s == [] then [[]]
    else
      var rest := Split(s[1..], sep);
      if s[0] == sep then [[]] + rest
      else [[s[0]] + rest[0]] + rest[1..]
  }

  /** Python's `sep.join(parts)`, the inverse of `Split`. */
  function Join(parts: seq<string>, sep: char): string
    requires |parts| >= 1
  {
    if |parts| == 1 then parts[0] else parts[0] + [sep] + Join(parts[1..], sep)
  }

  /** Joining the pieces of a split gives back the original string. */
  lemma {:induction false} JoinSplit(s: string, sep: char)
    ensures Join(Split(s, sep), sep) == s
    decreases |s|
  {
    if s != [] {
      JoinSplit(s[1..], sep);
      var rest := Split(s[1..], sep);
      if s[0] == sep {
        assert Split(s, sep) == [[]] + rest;
        assert ([[]] + rest)[1..] == rest;
      } else {
        var parts := [[s[0]] + rest[0]] + rest[1..];
        assert Split(s, sep) == parts;
        if |rest| > 1 {
          assert parts[1..] == rest[1..];
          assert Join(rest, sep) == rest[0] + [sep] + Join(rest[1..], sep);
        }
      }
    }
  }

  /** No piece of a split contains the separator. */
  lemma {:induction false} SplitPiecesFree(s: string, sep: char)
    ensures forall i :: 0 <= i < |Split(s, sep)| ==> sep !in Split(s, sep)[i]
    decreases |s|
  {
    if s != [] {
      SplitPiecesFree(s[1..], sep);
    }
  }

  /** Splitting a string with a separator-free head `a` keeps `a` in front of
      the first piece of the tail's split. */
  lemma {:induction false} SplitFreePrefix(a: string, b: string, sep: char)
    requires sep !in a
    ensures Split(a + b, sep) == [a + Split(b, sep)[0]] + Split(b, sep)[1..]
    decreases |a|
  {
    if a != [] {
      SplitFreePrefix(a[1..], b, sep);
      assert (a + b)[1..] == a[1..] + b;
      assert [a[0]] + (a[1..] + Split(b, sep)[0]) == a + Split(b, sep)[0];
    } else {
      var parts := Split(b, sep);
      assert a + b == b;
      assert a + parts[0] == parts[0];
      assert [parts[0]] + parts[1..] == parts;
    }
  }

  /** Splitting a join of separator-free pieces gives back the pieces. */
  lemma {:induction false} SplitJoin(parts: seq<string>, sep: char)
    requires |parts| >= 1
    requires forall i :: 0 <= i < |parts| ==> sep !in parts[i]
    ensures Split(Join(parts, sep), sep) == parts
    decreases |parts|
  {
    if |parts| == 1 {
      SplitFreePrefix(parts[0], [], sep);
      assert parts[0] + [] == parts[0];
    } else {
      SplitJoin(parts[1..], sep);
      var tail := Join(parts[1..], sep);
      SplitFreePrefix(parts[0], [sep] + tail, sep);
      assert parts[0] + [sep] + tail == parts[0] + ([sep] + tail);
      assert ([sep] + tail)[1..] == tail;
      assert Split([sep] + tail, sep) == [[]] + parts[1..];
      assert parts[0] + [] == parts[0];
      assert [parts[0]] + parts[1..] == parts;
    }
  }

  /** `host, port = entry.split(':')`: defined exactly when the entry holds one
      colon; `None` stands for the ValueError the unpacking raises otherwise. */
  function HostPort(entry: string): Option<(string, string)>
  {
    var parts := Split(entry, ':');
    if |parts| == 2 then Some((parts[0], parts[1])) else None
  }

  /** A successful split yields the text before and after the single colon. */
  lemma HostPortSound(entry: string)
    requires HostPort(entry).Some?
    ensures entry == HostPort(entry).value.0 + ":" + HostPort(entry).value.1
    ensures ':' !in HostPort(entry).value.0 && ':' !in HostPort(entry).value.1
  {
    var parts := Split(entry, ':');
    JoinSplit(entry, ':');
    SplitPiecesFree(entry, ':');
    assert parts[1..] == [parts[1]];
  }

  /** Every colon-free host and port joined by one colon splits back into them. */
  lemma HostPortComplete(host: string, port: string)
    requires ':' !in host && ':' !in port
    ensures HostPort(host + ":" + port) == Some((host, port))
  {
    SplitJoin([host, port], ':');
    assert [host, port][1..] == [port];
  }

  predicate IsDigit(c: char) { '0' <= c <= '9' }

  predicate AllDigits(t: string) { forall i :: 0 <= i < |t| ==> IsDigit(t[i]) }

  /** The value of a decimal digit string, most significant digit first. */
  function DigitsValue(t: string): nat
    requires AllDigits(t)
    decreases |t|
  {
    if t == [] then 0
    else DigitsValue(t[..|t| - 1]) * 10 + (t[|t| - 1] as int - '0' as int)
  }

  /** Python's `int(text)` on an optional sign followed by decimal digits;
      `None` stands for the ValueError it raises on anything else. */
  function ParseInt(text: string): Option<int>
  {
    if |text| > 0 && (text[0] == '-' || text[0] == '+') then
      var digits := text[1..];
      if |digits| > 0 && AllDigits(digits) then
        var magnitude: int := DigitsValue(digits);
        Some(if text[0] == '-' then -magnitude else magnitude)
      else None
    else if |text| > 0 && AllDigits(text) then Some(DigitsValue(text))
    else None
  }

  /** Python's `str(n)` for a natural number. */
  function ShowNat(n: nat): (t: string)
    ensures |t| > 0 && AllDigits(t)
  {
    var d := ['0' + (n % 10) as char];
    if n < 10 then d else ShowNat(n / 10) + d
  }

  /** Python's `str(n)`. */
  function ShowInt(n: int): string
  {
    if n < 0 then "-" + ShowNat(-n) else ShowNat(n)
  }

  lemma {:induction false} ShowNatValue(n: nat)
    ensures DigitsValue(ShowNat(n)) == n
  {
    var t := ShowNat(n);
    var d := ['0' + (n % 10) as char];
    if n >= 10 {
      ShowNatValue(n / 10);
      assert t[..|t| - 1] == ShowNat(n / 10);
    }
  }

  /** `int(str(n)) == n`: every integer written out reads back as itself. */
  lemma ParseShow(n: int)
    ensures ParseInt(ShowInt(n)) == Some(n)
  {
    if n < 0 {
      ShowNatValue(-n);
      assert ShowInt(n)[1..] == ShowNat(-n);
    } else {
      ShowNatValue(n);
    }
  }
}
