/** The few text routines the launcher and the options screen use:
    `strings.Split` and `strings.Join` on a one-character separator, and
    `strconv.Atoi` / `%v` formatting of a Go `int`. */
module GoStrings {
  import opened Wrappers
  import opened GoInt

  /** The first position of `c` in `s`. */
  function IndexOf(s: string, c: char): (r: Option<nat>)
    ensures r.None? <==> c !in s
    ensures r.Some? ==> r.value < |s| && s[r.value] == c && c !in s[..r.value]
    decreases |s|
  {
    if s == [] then None
    else if s[0] == c then Some(0)
    else
      match IndexOf(s[1..], c)
      case None => None
      case Some(i) =>
        assert s[..i + 1] == [s[0]] + s[1..][..i];
        Some(i + 1)
  }

  /** strings.Split: the pieces between separators; never empty (the
      empty string splits into one empty piece). */
  function Split(s: string, c: char): (r: seq<string>)
    ensures |r| >= 1
    ensures forall i :: 0 <= i < |r| ==> c !in r[i]
    decreases |s|
  {
    match IndexOf(s, c)
    case None => [s]
    case Some(i) => [s[..i]] + Split(s[i + 1..], c)
  }

  /** The total length of the pieces. */
  function Lengths(parts: seq<string>): nat
    decreases |parts|
  {
    if parts == [] then 0 else |parts[0]| + Lengths(parts[1..])
  }

  /** strings.Join: no pieces give the empty text; otherwise the text holds
      every piece's characters plus one separator between each two. */
  function Join(parts: seq<string>, c: char): (r: string)
    ensures parts == [] ==> r == ""
    ensures parts != [] ==> |r| == Lengths(parts) + |parts| - 1
    decreases |parts|
  {
    if parts == [] then ""
    else if |parts| == 1 then parts[0]
    else parts[0] + [c] + Join(parts[1..], c)
  }

  /** Joining pieces that are free of the separator and splitting again
      gives the pieces back. */
  lemma {:induction false} SplitJoin(parts: seq<string>, c: char)
    requires parts != [] && forall i :: 0 <= i < |parts| ==> c !in parts[i]
    ensures Split(Join(parts, c), c) == parts
    decreases |parts|
  {
    if |parts| > 1 {
      assert [parts[0]] + parts[1..] == parts;
      JoinCons(parts[0], parts[1..], c);
      SplitCons(parts[0], Join(parts[1..], c), c);
      SplitJoin(parts[1..], c);
    }
  }

  /** Splitting and joining again gives the text back. */
  lemma {:induction false} JoinSplit(s: string, c: char)
    ensures Join(Split(s, c), c) == s
    decreases |s|
  {
    match IndexOf(s, c)
    case None =>
    case Some(i) =>
      var rest := Split(s[i + 1..], c);
      assert Split(s, c) == [s[..i]] + rest;
      JoinCons(s[..i], rest, c);
      JoinSplit(s[i + 1..], c);
      assert s == s[..i] + [c] + s[i + 1..];
  }

  /** Splitting at the first separator: the piece before it, then the
      split of the rest. */
  lemma SplitCons(first: string, rest: string, c: char)
    requires c !in first
    ensures Split(first + [c] + rest, c) == [first] + Split(rest, c)
  {
    var s := first + [c] + rest;
    assert s[..|first|] == first;
    assert s[|first|] == c;
    assert IndexOf(s, c) == Some(|first|);
    assert s[|first| + 1..] == rest;
  }

  /** Joining a first piece before a non-empty rest puts one separator
      between them. */
  lemma JoinCons(first: string, rest: seq<string>, c: char)
    requires rest != []
    ensures Join([first] + rest, c) == first + [c] + Join(rest, c)
  {
    assert ([first] + rest)[1..] == rest;
  }

  /** A string with no separator is one piece. */
  lemma SplitWithout(s: string, c: char)
    requires c !in s
    ensures Split(s, c) == [s]
  {
  }

  /** A piece free of a character stays free of it when joined with
      another separator. */
  lemma {:induction false} JoinAvoids(parts: seq<string>, c: char, x: char)
    requires x != c && forall i :: 0 <= i < |parts| ==> x !in parts[i]
    ensures x !in Join(parts, c)
    decreases |parts|
  {
    if |parts| > 1 {
      JoinAvoids(parts[1..], c, x);
    }
  }

  /** A `key=value` field (`fmt.Sprintf("%v=%v", key, value)`). */
  function FieldText(key: string, value: string): string {
    key + "=" + value
  }

  /** A field whose key and value are free of `=` splits back into the
      two. */
  lemma FieldSplit(key: string, v: string)
    requires '=' !in key && '=' !in v
    ensures Split(FieldText(key, v), '=') == [key, v]
  {
    var s := FieldText(key, v);
    assert s[..|key|] == key && s[|key|] == '=';
    assert IndexOf(s, '=') == Some(|key|);
    assert s[|key| + 1..] == v;
  }

  // ---------------------------------------------------------------------
  // Decimal integers
  // ---------------------------------------------------------------------

  predicate IsDigit(ch: char) {
    '0' <= ch <= '9'
  }

  predicate AllDigits(s: string) {
    forall i :: 0 <= i < |s| ==> IsDigit(s[i])
  }

  /** The value of a string of decimal digits. */
  function DigitsValue(s: string): nat
    requires AllDigits(s)
    decreases |s|
  {
    if s == [] then 0
    else DigitsValue(s[..|s| - 1]) * 10 + (s[|s| - 1] as int - '0' as int)
  }

  /** The decimal digits of a natural number, most significant first, with
      no leading zero. */
  function NatDigits(n: nat): (s: string)
    ensures s != [] && AllDigits(s)
    ensures |s| > 1 ==> s[0] != '0'
    decreases n
  {
    var d := ['0' + (n % 10) as char];
    if n < 10 then d else NatDigits(n / 10) + d
  }

  lemma {:induction false} NatDigitsValue(n: nat)
    ensures DigitsValue(NatDigits(n)) == n
    decreases n
  {
    if n >= 10 {
      NatDigitsValue(n / 10);
      var s := NatDigits(n);
      assert s[..|s| - 1] == NatDigits(n / 10);
    }
  }

  /** `%v` (or strconv.Itoa) of an int. */
  function Itoa(n: int): (s: string)
    ensures s != [] && ';' !in s && '=' !in s && '\n' !in s
  {
    var s := if n < 0 then "-" + NatDigits(-n) else NatDigits(n);
    assert forall i :: 0 <= i < |s| ==> s[i] == '-' || IsDigit(s[i]);
    s
  }

  /** strconv.Atoi: an optional sign and at least one decimal digit, with
      a value that fits in 64 bits; anything else is an error (`None`). */
  function Atoi(s: string): (r: Option<int>)
    ensures r.Some? ==> IsInt64(r.value)
  {
    if s == [] then None
    else
      var digits := if s[0] == '-' || s[0] == '+' then s[1..] else s;
      if digits == [] || !AllDigits(digits) then None
      else
        var v: int := if s[0] == '-' then -(DigitsValue(digits) as int) else DigitsValue(digits) as int;
        if IsInt64(v) then Some(v) else None
  }

  /** Every 64-bit int prints as text that reads back as itself. */
  lemma AtoiItoa(n: int)
    requires IsInt64(n)
    ensures Atoi(Itoa(n)) == Some(n)
  {
    if n < 0 {
      NatDigitsValue(-n);
      assert Itoa(n)[1..] == NatDigits(-n);
    } else {
      NatDigitsValue(n);
    }
  }

  /** Atoi rejects the empty string, a bare sign and non-digits, and reads
      a sign and leading zeros. */
  lemma AtoiExamples()
    ensures Atoi("") == None && Atoi("-") == None && Atoi("1a") == None && Atoi("abc") == None
    ensures Atoi("+7") == Some(7) && Atoi("-12") == Some(-12) && Atoi("007") == Some(7)
  {
    assert !AllDigits("1a") by { assert !IsDigit("1a"[1]); }
    assert !AllDigits("abc") by { assert !IsDigit("abc"[0]); }
    assert "+7"[1..] == "7";
    assert "-12"[1..] == "12";
    assert "12"[..1] == "1";
    assert "007"[..2] == "00";
    assert "00"[..1] == "0";
  }
}
