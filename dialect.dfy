/**
  The database URL fix applied to the configured URL: a Heroku-style `postgres://`
  scheme is renamed `postgresql://`, and every `postgresql://` then names the
  psycopg2 driver explicitly.
 */
module Dialect {

  predicate StartsWith(s: string, prefix: string)
  {
    |prefix| <= |s| && s[..|prefix|] == prefix
  }

  /** `pat` occurs in `s` at index `i`. */
  predicate OccursAt(pat: string, s: string, i: int)
  {
    0 <= i <= |s| - |pat| && s[i..i + |pat|] == pat
  }

  /** `pat` occurs somewhere in `s`. */
  predicate Occurs(pat: string, s: string)
  {
    exists i :: 0 <= i <= |s| - |pat| && OccursAt(pat, s, i)
  }

  /** Python's `s.replace(pat, rep)`: occurrences are replaced from left to right,
      without overlapping, and the scan resumes after each replacement. */
  function ReplaceAll(s: string, pat: string, rep: string): (r: string)
    requires |pat| > 0
    decreases |s|
  {
    if |s| < |pat| then s
    else if s[..|pat|] == pat then rep + ReplaceAll(s[|pat|..], pat, rep)
    else [s[0]] + ReplaceAll(s[1..], pat, rep)
  }

  const Heroku := "postgres://"
  const Postgresql := "postgresql://"
  const Psycopg2 := "postgresql+psycopg2://"

  /** `fix_dialect`. */
  function FixDialect(s: string): (r: string)
  {
    var renamed := if StartsWith(s, Heroku) then ReplaceAll(s, Heroku, Postgresql) else s;
    ReplaceAll(renamed, Postgresql, Psycopg2)
  }

  /** A string without an occurrence of the pattern is left as it is. */
  lemma {:induction false} ReplaceAllWithout(s: string, pat: string, rep: string)
    requires |pat| > 0 && !Occurs(pat, s)
    ensures ReplaceAll(s, pat, rep) == s
    decreases |s|
  {
    if |s| >= |pat| {
      assert !OccursAt(pat, s, 0);
      assert s[0..0 + |pat|] == s[..|pat|];
      forall i | OccursAt(pat, s[1..], i)
        ensures false
      {
        assert s[1..][i..i + |pat|] == s[i + 1..i + 1 + |pat|];
        assert OccursAt(pat, s, i + 1);
      }
      ReplaceAllWithout(s[1..], pat, rep);
    }
  }

  /** A leading occurrence is replaced and the scan goes on after it. */
  lemma ReplaceAllLeading(pat: string, rest: string, rep: string)
    requires |pat| > 0
    ensures ReplaceAll(pat + rest, pat, rep) == rep + ReplaceAll(rest, pat, rep)
  {
    assert (pat + rest)[..|pat|] == pat;
    assert (pat + rest)[|pat|..] == rest;
  }

  /** A first character that cannot start the pattern is copied. */
  lemma StepOver(s: string, pat: string, rep: string)
    requires |pat| > 0 && |s| > 0 && s[0] != pat[0]
    ensures ReplaceAll(s, pat, rep) == [s[0]] + ReplaceAll(s[1..], pat, rep)
  {
    if |s| >= |pat| {
      assert s[..|pat|][0] != pat[0];
    }
  }

  /** A prefix none of whose characters can start the pattern is copied as it is. */
  lemma {:induction false} CopyPrefix(a: string, rest: string, pat: string, rep: string)
    requires |pat| > 0 && forall k :: 0 <= k < |a| ==> a[k] != pat[0]
    ensures ReplaceAll(a + rest, pat, rep) == a + ReplaceAll(rest, pat, rep)
    decreases |a|
  {
    if |a| > 0 {
      var s := a + rest;
      assert s[0] == a[0] && s[1..] == a[1..] + rest;
      StepOver(s, pat, rep);
      CopyPrefix(a[1..], rest, pat, rep);
      assert a == [a[0]] + a[1..];
    } else {
      assert a + rest == rest;
    }
  }

  /** Replacing in a string free of the pattern's first character changes nothing. */
  lemma CopyAll(b: string, pat: string, rep: string)
    requires |pat| > 0 && forall k :: 0 <= k < |b| ==> b[k] != pat[0]
    ensures ReplaceAll(b, pat, rep) == b
  {
    CopyPrefix(b, "", pat, rep);
    assert b + "" == b;
  }

  /** Two occurrences separated by text that cannot start the pattern are both
      replaced. */
  lemma TwoOccurrences(pat: string, a: string, b: string, rep: string)
    requires |pat| > 0
    requires forall k :: 0 <= k < |a| ==> a[k] != pat[0]
    requires forall k :: 0 <= k < |b| ==> b[k] != pat[0]
    ensures ReplaceAll(pat + (a + (pat + b)), pat, rep) == rep + (a + (rep + b))
  {
    var tail := pat + b;
    var middle := a + tail;
    ReplaceAllLeading(pat, middle, rep);
    CopyPrefix(a, tail, pat, rep);
    ReplaceAllLeading(pat, b, rep);
    CopyAll(b, pat, rep);
  }

  /** Every occurrence is rewritten, not only the scheme: a URL naming the Heroku
      scheme twice has both renamed. */
  lemma EveryOccurrence(a: string, b: string)
    requires forall k :: 0 <= k < |a| ==> a[k] != 'p'
    requires forall k :: 0 <= k < |b| ==> b[k] != 'p'
    ensures FixDialect(Heroku + a + Heroku + b) == Psycopg2 + a + Psycopg2 + b
  {
    var s := Heroku + a + Heroku + b;
    assert StartsWith(s, Heroku) by {
      assert s == Heroku + (a + Heroku + b);
    }
    assert s == Heroku + (a + (Heroku + b));
    TwoOccurrences(Heroku, a, b, Postgresql);
    TwoOccurrences(Postgresql, a, b, Psycopg2);
    assert Psycopg2 + (a + (Psycopg2 + b)) == Psycopg2 + a + Psycopg2 + b;
  }

  /** Two `postgresql://` occurrences both get the driver named. */
  lemma EveryPostgresqlOccurrence(a: string, b: string)
    requires forall k :: 0 <= k < |a| ==> a[k] != 'p'
    requires forall k :: 0 <= k < |b| ==> b[k] != 'p'
    ensures FixDialect(Postgresql + a + Postgresql + b) == Psycopg2 + a + Psycopg2 + b
  {
    var s := Postgresql + a + Postgresql + b;
    assert s == Postgresql + (a + (Postgresql + b));
    assert s[8] != Heroku[8];
    TwoOccurrences(Postgresql, a, b, Psycopg2);
    assert Psycopg2 + (a + (Psycopg2 + b)) == Psycopg2 + a + Psycopg2 + b;
  }

  /** `rep` and `pat` disagree at offset `m` from position `k` of `rep`, before
      either ends. */
  predicate DisagreesAt(pat: string, rep: string, k: int, m: int)
  {
    0 <= m < |pat| && 0 <= k && k + m < |rep| && rep[k + m] != pat[m]
  }

  /** No occurrence of `pat` can start at position `k` of `rep`, whatever follows
      `rep`. */
  predicate Clash(pat: string, rep: string, k: int)
  {
    exists m :: 0 <= m < |pat| && DisagreesAt(pat, rep, k, m)
  }

  /** While the output of a replace-all holds no character that can start the
      pattern, it is the input copied. Needs a replacement that starts like the
      pattern. */
  lemma {:induction false} CopiedPrefix(t: string, pat: string, rep: string, n: nat)
    requires |pat| > 0 && |rep| > 0 && rep[0] == pat[0]
    requires n <= |ReplaceAll(t, pat, rep)|
    requires forall k :: 0 <= k < n ==> ReplaceAll(t, pat, rep)[k] != pat[0]
    ensures n <= |t| && t[..n] == ReplaceAll(t, pat, rep)[..n]
    decreases |t|
  {
    var out := ReplaceAll(t, pat, rep);
    if n > 0 && |t| >= |pat| {
      assert out[0] != pat[0];
      assert t[..|pat|] != pat;
      var x := ReplaceAll(t[1..], pat, rep);
      assert out == [t[0]] + x;
      forall k | 0 <= k < n - 1
        ensures x[k] != pat[0]
      {
        assert out[k + 1] == x[k];
      }
      CopiedPrefix(t[1..], pat, rep, n - 1);
      assert t[..n] == [t[0]] + t[1..][..n - 1];
      assert out[..n] == [t[0]] + x[..n - 1];
    }
  }

  /** An occurrence after a prefix is an occurrence in the rest. */
  lemma OccursShift(a: string, x: string, pat: string, i: int)
    ensures |a| <= i && OccursAt(pat, a + x, i) ==> OccursAt(pat, x, i - |a|)
  {
    if |a| <= i && OccursAt(pat, a + x, i) {
      assert x[i - |a|..i - |a| + |pat|] == (a + x)[i..i + |pat|];
    }
  }

  /** No occurrence starts inside a replacement. */
  lemma NoOccurrenceInReplacement(pat: string, rep: string, x: string, i: int)
    ensures 0 <= i < |rep| && Clash(pat, rep, i) ==> !OccursAt(pat, rep + x, i)
  {
    if 0 <= i < |rep| && Clash(pat, rep, i) {
      var m :| 0 <= m < |pat| && DisagreesAt(pat, rep, i, m);
      assert (rep + x)[i + m] == rep[i + m];
    }
  }

  /** An occurrence at a copied character means the input started with the
      pattern, where the pattern's first character appears only once in it. */
  lemma OccurrenceAtCopy(s: string, pat: string, rep: string)
    requires |pat| > 0 && |rep| > 0 && rep[0] == pat[0] && |s| > 0
    requires forall j :: 1 <= j < |pat| ==> pat[j] != pat[0]
    ensures OccursAt(pat, [s[0]] + ReplaceAll(s[1..], pat, rep), 0) ==> |s| >= |pat| && s[..|pat|] == pat
  {
    var x := ReplaceAll(s[1..], pat, rep);
    var out := [s[0]] + x;
    if OccursAt(pat, out, 0) {
      assert out[..|pat|] == pat;
      assert x[..|pat| - 1] == out[1..|pat|] == pat[1..];
      forall k | 0 <= k < |pat| - 1
        ensures x[k] != pat[0]
      {
        assert x[k] == pat[k + 1];
      }
      CopiedPrefix(s[1..], pat, rep, |pat| - 1);
      assert s[..|pat|] == [s[0]] + s[1..][..|pat| - 1];
    }
  }

  /**
    A replace-all leaves no occurrence of the pattern, neither one that survives nor
    one that the replacements create, when the pattern's first character appears in
    it only once, the replacement starts with that character, and no occurrence can
    start inside the replacement.
   */
  lemma {:induction false} NoOccurrenceLeft(s: string, pat: string, rep: string)
    requires |pat| > 0 && |rep| > 0 && rep[0] == pat[0]
    requires forall j :: 1 <= j < |pat| ==> pat[j] != pat[0]
    requires forall k :: 0 <= k < |rep| ==> Clash(pat, rep, k)
    ensures !Occurs(pat, ReplaceAll(s, pat, rep))
    decreases |s|
  {
    var out := ReplaceAll(s, pat, rep);
    if |s| >= |pat| {
      if s[..|pat|] == pat {
        var x := ReplaceAll(s[|pat|..], pat, rep);
        assert out == rep + x;
        NoOccurrenceLeft(s[|pat|..], pat, rep);
        forall i | 0 <= i <= |out| - |pat|
          ensures !OccursAt(pat, out, i)
        {
          if i < |rep| {
            NoOccurrenceInReplacement(pat, rep, x, i);
          } else {
            OccursShift(rep, x, pat, i);
          }
        }
      } else {
        var x := ReplaceAll(s[1..], pat, rep);
        assert out == [s[0]] + x;
        NoOccurrenceLeft(s[1..], pat, rep);
        forall i | 0 <= i <= |out| - |pat|
          ensures !OccursAt(pat, out, i)
        {
          if i == 0 {
            OccurrenceAtCopy(s, pat, rep);
          } else {
            OccursShift([s[0]], x, pat, i);
          }
        }
      }
    }
  }

  /** No occurrence of `postgresql://` can start inside `postgresql+psycopg2://`. */
  lemma DriverSchemeClashes()
    ensures forall k :: 0 <= k < |Psycopg2| ==> Clash(Postgresql, Psycopg2, k)
  {
    forall k | 0 <= k < |Psycopg2|
      ensures Clash(Postgresql, Psycopg2, k)
    {
      if k == 0 {
        assert DisagreesAt(Postgresql, Psycopg2, k, 10);
      } else if k == 11 || k == 16 {
        assert DisagreesAt(Postgresql, Psycopg2, k, 1);
      } else {
        assert DisagreesAt(Postgresql, Psycopg2, k, 0);
      }
    }
  }

  /** No occurrence of `postgres://` can start inside `postgresql://`. */
  lemma SchemeClashes()
    ensures forall k :: 0 <= k < |Postgresql| ==> Clash(Heroku, Postgresql, k)
  {
    forall k | 0 <= k < |Postgresql|
      ensures Clash(Heroku, Postgresql, k)
    {
      if k == 0 {
        assert DisagreesAt(Heroku, Postgresql, k, 8);
      } else {
        assert DisagreesAt(Heroku, Postgresql, k, 0);
      }
    }
  }

  /** The renaming step, which runs on a Heroku-style URL, renames every
      `postgres://` in it, not only the scheme. */
  lemma NoHerokuLeftAfterRename(s: string)
    ensures !Occurs(Heroku, ReplaceAll(s, Heroku, Postgresql))
  {
    SchemeClashes();
    NoOccurrenceLeft(s, Heroku, Postgresql);
  }

  /** Every `postgresql://` is rewritten, wherever it occurs: the fixed URL contains
      none, whatever the input. */
  lemma NoPostgresqlLeft(s: string)
    ensures !Occurs(Postgresql, FixDialect(s))
  {
    DriverSchemeClashes();
    var renamed := if StartsWith(s, Heroku) then ReplaceAll(s, Heroku, Postgresql) else s;
    NoOccurrenceLeft(renamed, Postgresql, Psycopg2);
  }

  /** Whatever follows the scheme, a Heroku-style URL ends up with the psycopg2
      scheme. */
  lemma HerokuScheme(s: string)
    requires StartsWith(s, Heroku)
    ensures StartsWith(FixDialect(s), Psycopg2)
  {
    var rest := s[|Heroku|..];
    assert s == Heroku + rest;
    ReplaceAllLeading(Heroku, rest, Postgresql);
    ReplaceAllLeading(Postgresql, ReplaceAll(rest, Heroku, Postgresql), Psycopg2);
  }

  /** Whatever follows the scheme, a `postgresql://` URL ends up with the psycopg2
      scheme. */
  lemma PostgresqlScheme(s: string)
    requires StartsWith(s, Postgresql)
    ensures StartsWith(FixDialect(s), Psycopg2)
  {
    var rest := s[|Postgresql|..];
    assert s == Postgresql + rest;
    assert s[8] != Heroku[8];
    ReplaceAllLeading(Postgresql, rest, Psycopg2);
  }

  /** A Heroku-style URL gets the psycopg2 scheme. */
  lemma HerokuUrl(rest: string)
    requires !Occurs(Heroku, rest) && !Occurs(Postgresql, rest)
    ensures FixDialect(Heroku + rest) == Psycopg2 + rest
  {
    assert StartsWith(Heroku + rest, Heroku);
    ReplaceAllLeading(Heroku, rest, Postgresql);
    ReplaceAllWithout(rest, Heroku, Postgresql);
    ReplaceAllLeading(Postgresql, rest, Psycopg2);
    ReplaceAllWithout(rest, Postgresql, Psycopg2);
  }

  /** A `postgresql://` URL gets the psycopg2 scheme. */
  lemma PostgresqlUrl(rest: string)
    requires !Occurs(Postgresql, rest)
    ensures FixDialect(Postgresql + rest) == Psycopg2 + rest
  {
    assert (Postgresql + rest)[8] != Heroku[8];
    ReplaceAllLeading(Postgresql, rest, Psycopg2);
    ReplaceAllWithout(rest, Postgresql, Psycopg2);
  }

  /** Any other URL, such as the SQLite default, is left as it is. */
  lemma OtherUrl(s: string)
    requires !StartsWith(s, Heroku) && !Occurs(Postgresql, s)
    ensures FixDialect(s) == s
  {
    ReplaceAllWithout(s, Postgresql, Psycopg2);
  }
}
