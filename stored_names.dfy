/** The name an upload is stored under: the millisecond clock reading in decimal,
    a dash, and the client's file name (server/server.js, line 39). The clock
    reading is a parameter. */
module StoredNames {
  import opened Wrappers

  predicate IsDigit(c: char)
  {
    '0' <= c <= '9'
  }

  predicate AllDigits(s: string)
  {
    forall i :: 0 <= i < |s| ==> IsDigit(s[i])
  }

  function DigitChar(d: nat): (c: char)
    requires d < 10
    ensures IsDigit(c) && c as int - '0' as int == d
  {
    ('0' as int + d) as char
  }

  /** How JavaScript writes a non-negative integer number: decimal digits, no leading zero. */
  function Decimal(n: nat): (s: string)
    ensures |s| >= 1 && AllDigits(s)
    ensures |s| > 1 ==> s[0] != '0'
  {
    if n < 10 then [DigitChar(n)] else Decimal(n / 10) + [DigitChar(n % 10)]
  }

  /** The value of a string of decimal digits (0 for the empty string). */
  function ParseDecimal(s: string): nat
    requires AllDigits(s)
  {
    if s == [] then 0 else 10 * ParseDecimal(s[..|s| - 1]) + (s[|s| - 1] as int - '0' as int)
  }

  /** Reading back the decimal digits gives the number that was written. */
  lemma {:induction false} ParseDecimalInverts(n: nat)
    ensures ParseDecimal(Decimal(n)) == n
  {
    if n >= 10 {
      var s := Decimal(n);
      assert s[..|s| - 1] == Decimal(n / 10);
      ParseDecimalInverts(n / 10);
    }
  }

  /** `Date.now() + "-" + file.originalname` */
  function StoredName(now: nat, originalname: string): string
  {
    Decimal(now) + "-" + originalname
  }

  /** The position of the first `c` in `s`, if any. */
  function IndexOf(s: string, c: char): (r: Option<nat>)
    ensures r.Some? ==> r.value < |s| && s[r.value] == c
    ensures r.Some? ==> forall j :: 0 <= j < r.value ==> s[j] != c
    ensures r.None? <==> forall j :: 0 <= j < |s| ==> s[j] != c
  {
    if s == [] then None
    else if s[0] == c then Some(0)
    else match IndexOf(s[1..], c)
      case None => None
      case Some(k) => Some(k + 1)
  }

  /** Splits a stored name at its first dash into the clock reading and the client's
      file name; None when the part before the dash is not a decimal number. */
  function SplitStoredName(name: string): Option<(nat, string)>
  {
    match IndexOf(name, '-')
    case None => None
    case Some(k) =>
      if 0 < k && AllDigits(name[..k]) then Some((ParseDecimal(name[..k]), name[k + 1..])) else None
  }

  /** A stored name records both the clock reading and the client's file name
      (the file name may itself contain dashes). */
  lemma StoredNameSplits(now: nat, originalname: string)
    ensures SplitStoredName(StoredName(now, originalname)) == Some((now, originalname))
  {
    var d := Decimal(now);
    var name := StoredName(now, originalname);
    assert name[..|d|] == d;
    assert name[|d|] == '-';
    assert name[|d| + 1..] == originalname;
    assert IndexOf(name, '-') == Some(|d|) by {
      forall j | 0 <= j < |d| ensures name[j] != '-' {
        assert IsDigit(d[j]);
      }
    }
    ParseDecimalInverts(now);
  }

  /** Two uploads get the same stored name only when both the clock reading and the
      client's file name agree. */
  lemma StoredNameInjective(now1: nat, name1: string, now2: nat, name2: string)
    requires StoredName(now1, name1) == StoredName(now2, name2)
    ensures now1 == now2 && name1 == name2
  {
    StoredNameSplits(now1, name1);
    StoredNameSplits(now2, name2);
  }
}
