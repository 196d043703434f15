/**
 * Values shared by all rules: optional values, opaque source locations,
 * the diagnostics the analyzers report, and an order-preserving filter
 * standing for LINQ's `Where`.
 */
module Common {

  datatype Option<+T> = None | Some(value: T)

  /** An opaque source location, as produced by the compiler front end. */
  datatype Location = Location(id: nat)

  /** The identity of a symbol; two symbols are `Equals` iff their ids are equal. */
  type SymbolId = nat

  /** The kind of a symbol, as the statement-count rule prints it. */
  datatype SymbolKind = Method | Property | Event | Field | OtherSymbol

  /** The diagnostic descriptors of the modelled analyzers. */
  datatype Rule =
    | ManyStatementsRule     // AV1500
    | InvokeRule             // AV1551, "should call another overload"
    | MakeVirtualRule        // AV1551, "overload with the most parameters should be virtual"
    | OrderRule              // AV1551, "parameter order does not match"
    | RefParameterRule       // CSS1562
    | NamedArgumentRule      // AV1555

  /** A positional argument of a diagnostic's message. */
  datatype DiagnosticArg = TextArg(text: string) | NumberArg(number: int) | KindArg(kind: SymbolKind)

  /** A reported diagnostic: which rule, where, and the message arguments. */
  datatype Diagnostic = Diagnostic(rule: Rule, location: Location, args: seq<DiagnosticArg>)

  /** The elements of `s` that satisfy `p`, in their original order. */
  function Filter<T>(p: T -> bool, s: seq<T>): (r: seq<T>)
    ensures |r| <= |s|
    ensures forall x | x in r :: x in s && p(x)
    ensures forall x | x in s && p(x) :: x in r
  {
    if s == [] then [] else (if p(s[0]) then [s[0]] else []) + Filter(p, s[1..])
  }

  /** Position `k` is the only position of `s` whose element satisfies `p`. */
  ghost predicate OnlyAt<T>(p: T -> bool, s: seq<T>, k: int)
  {
    0 <= k < |s| && p(s[k]) && forall j :: 0 <= j < |s| && j != k ==> !p(s[j])
  }

  lemma {:induction false} FilterNone<T>(p: T -> bool, s: seq<T>)
    requires forall j :: 0 <= j < |s| ==> !p(s[j])
    ensures Filter(p, s) == []
  {
    if s != [] {
      forall j | 0 <= j < |s| - 1 ensures !p(s[1..][j]) { assert s[1..][j] == s[j + 1]; }
      FilterNone(p, s[1..]);
    }
  }

  /** When only position `k` satisfies `p`, the filter keeps exactly `s[k]`. */
  lemma {:induction false} FilterOnlyAt<T>(p: T -> bool, s: seq<T>, k: int)
    requires OnlyAt(p, s, k)
    ensures Filter(p, s) == [s[k]]
  {
    var rest := s[1..];
    if k == 0 {
      forall j | 0 <= j < |rest| ensures !p(rest[j]) { assert rest[j] == s[j + 1]; }
      FilterNone(p, rest);
    } else {
      forall j | 0 <= j < |rest| && j != k - 1 ensures !p(rest[j]) { assert rest[j] == s[j + 1]; }
      assert rest[k - 1] == s[k];
      FilterOnlyAt(p, rest, k - 1);
    }
  }

  /** A filter that keeps exactly one element found the only position satisfying `p`. */
  lemma {:induction false} FilterSingleton<T>(p: T -> bool, s: seq<T>)
    requires |Filter(p, s)| == 1
    ensures exists k :: OnlyAt(p, s, k)
  {
    var rest := s[1..];
    if p(s[0]) {
      assert |Filter(p, rest)| == 0;
      forall j | 0 <= j < |s| && j != 0 ensures !p(s[j]) {
        assert s[j] == rest[j - 1] && s[j] in rest && Filter(p, rest) == [];
      }
      assert OnlyAt(p, s, 0);
    } else {
      assert Filter(p, s) == Filter(p, rest);
      FilterSingleton(p, rest);
      var k :| OnlyAt(p, rest, k);
      forall j | 0 <= j < |s| && j != k + 1 ensures !p(s[j]) {
        if j > 0 { assert s[j] == rest[j - 1]; }
      }
      assert OnlyAt(p, s, k + 1);
    }
  }

  /** Filtering distributes over concatenation. */
  lemma {:induction false} FilterAppend<T>(p: T -> bool, a: seq<T>, b: seq<T>)
    ensures Filter(p, a + b) == Filter(p, a) + Filter(p, b)
  {
    if a == [] {
      assert a + b == b;
    } else {
      assert (a + b)[1..] == a[1..] + b;
      FilterAppend(p, a[1..], b);
    }
  }

  /** No element of `s` occurs twice. */
  ghost predicate Distinct<T>(s: seq<T>)
  {
    forall i, j :: 0 <= i < j < |s| ==> s[i] != s[j]
  }

  /** Filtering keeps distinct elements distinct. */
  lemma {:induction false} FilterDistinct<T>(p: T -> bool, s: seq<T>)
    requires Distinct(s)
    ensures Distinct(Filter(p, s))
  {
    if s != [] {
      var rest := s[1..];
      assert Distinct(rest) by {
        forall i, j | 0 <= i < j < |rest| ensures rest[i] != rest[j] {
          assert rest[i] == s[i + 1] && rest[j] == s[j + 1];
        }
      }
      FilterDistinct(p, rest);
      assert s[0] !in rest by {
        forall j | 0 <= j < |rest| ensures rest[j] != s[0] {
          assert rest[j] == s[j + 1];
        }
      }
      var r := Filter(p, s);
      var fr := Filter(p, rest);
      if p(s[0]) {
        assert r == [s[0]] + fr;
        forall i, j | 0 <= i < j < |r| ensures r[i] != r[j] {
          if i == 0 {
            assert r[j] == fr[j - 1] && r[j] in fr;
          } else {
            assert r[i] == fr[i - 1] && r[j] == fr[j - 1];
          }
        }
      } else {
        assert r == fr;
      }
    }
  }
}
