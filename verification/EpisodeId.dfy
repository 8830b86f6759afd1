/** Episode identities and the order of mRIDs: the string facts the breach component relies on. */
module EpisodeId {

  function Digit(n: nat): char
    requires n < 10
  {
    '0' + n as char
  }

  function Decimal(n: nat): string {
    if n < 10 then [Digit(n)] else Decimal(n / 10) + [Digit(n % 10)]
  }

  function DecimalInt(i: int): string {
    if i >= 0 then Decimal(i) else "-" + Decimal(-i)
  }

  /** "%s@%d#%d" */
  function Format(mrid: string, issuedAt: int, counter: nat): string {
    mrid + "@" + DecimalInt(issuedAt) + "#" + Decimal(counter)
  }

  function ValueOf(s: string): nat {
    if s == "" then 0 else
      10 * ValueOf(s[..|s| - 1]) + (if '0' <= s[|s| - 1] <= '9' then (s[|s| - 1] - '0') as nat else 0)
  }

  lemma {:induction false} DecimalValue(n: nat)
    ensures ValueOf(Decimal(n)) == n && '#' !in Decimal(n)
  {
    if n < 10 {
      assert Decimal(n)[..0] == "";
    } else {
      DecimalValue(n / 10);
      assert Decimal(n)[..|Decimal(n)| - 1] == Decimal(n / 10);
    }
  }

  lemma SeparatorInside(x: string, d: string, y: string, e: string)
    requires x + "#" + d == y + "#" + e && |d| < |e|
    ensures '#' in e
  {
    var s := y + "#" + e;
    assert s[|s| - |d| - 1] == e[|e| - |d| - 1];
    assert (x + "#" + d)[|s| - |d| - 1] == '#';
  }

  lemma LastSeparator(x: string, d: string, y: string, e: string)
    requires x + "#" + d == y + "#" + e && '#' !in d && '#' !in e
    ensures d == e
  {
    if |d| < |e| {
      SeparatorInside(x, d, y, e);
    } else if |e| < |d| {
      SeparatorInside(y, e, x, d);
    } else {
      var s := x + "#" + d;
      assert d == s[|s| - |d|..];
      assert e == (y + "#" + e)[|s| - |d|..];
    }
  }

  /** Whatever the mRIDs contain, IDs with different counters differ. */
  lemma CounterIsUnique(m: string, i: int, c: nat, m': string, i': int, c': nat)
    requires Format(m, i, c) == Format(m', i', c')
    ensures c == c'
  {
    DecimalValue(c);
    DecimalValue(c');
    LastSeparator(m + "@" + DecimalInt(i), Decimal(c), m' + "@" + DecimalInt(i'), Decimal(c'));
  }

  /** An episode ID by its parts; NoEpisode prints as the empty string. */
  datatype Episode = NoEpisode | Episode(mrid: string, issuedAt: int, counter: nat)

  function Printed(e: Episode): string {
    match e case NoEpisode => "" case Episode(m, i, c) => Format(m, i, c)
  }

  lemma PrintedCounter(a: Episode, b: Episode)
    requires Printed(a) == Printed(b)
    ensures a.Episode? == b.Episode?
    ensures a.Episode? ==> a.counter == b.counter
  {
    if a.Episode? && b.Episode? {
      CounterIsUnique(a.mrid, a.issuedAt, a.counter, b.mrid, b.issuedAt, b.counter);
    } 
  }

  /** Lexicographic order of strings. */
  predicate Below(a: string, b: string) {
    b != "" && (a == "" || a[0] < b[0] || (a[0] == b[0] && Below(a[1..], b[1..])))
  }

  lemma {:induction false} BelowIsTotal(a: string, b: string)
    ensures a == b || Below(a, b) || Below(b, a)
    ensures !(Below(a, b) && Below(b, a)) && !Below(a, a)
    decreases |a|
  {
    if a != "" {
      BelowIsTotal(a[1..], if b == "" then "" else b[1..]);
      if b != "" && a[0] == b[0] && a[1..] == b[1..] {
        assert a == [a[0]] + a[1..] == b;
      }
    }
  }

  lemma {:induction false} BelowIsTransitive(a: string, b: string, c: string)
    requires Below(a, b) && Below(b, c)
    ensures Below(a, c)
    decreases |a|
  {
    if a != "" && a[0] == b[0] && b[0] == c[0] {
      BelowIsTransitive(a[1..], b[1..], c[1..]);
    }
  }
}
