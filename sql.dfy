/**
 * The text-level building blocks the repositories use to assemble SQL:
 * Go's strings.Repeat and strings.Join, the `?` placeholder list of an
 * `IN (...)` clause, the ` WHERE ` suffix, and a count of the `?`
 * placeholders in a piece of query text.
 */
module Sql {

  /** strings.Repeat(s, count) for a non-negative count. */
  function Repeat(s: string, count: nat): (r: string)
  {
    if count == 0 then "" else s + Repeat(s, count - 1)
  }

  /** strings.Join(elems, sep): the elements with sep between neighbours. */
  function Join(elems: seq<string>, sep: string): (r: string)
  {
    if |elems| == 0 then ""
    else if |elems| == 1 then elems[0]
    else elems[0] + sep + Join(elems[1..], sep)
  }

  lemma JoinPair(a: string, b: string, sep: string)
    ensures Join([a, b], sep) == a + sep + b
  {
  }

  /** Number of occurrences of c in s. */
  function Count(c: char, s: string): (r: nat)
  {
    if s == [] then 0 else (if s[0] == c then 1 else 0) + Count(c, s[1..])
  }

  /** Number of `?` placeholders in a piece of query text. */
  function Placeholders(s: string): (r: nat)
  {
    Count('?', s)
  }

  /** Total number of placeholders over a list of clauses. */
  function PlaceholdersIn(clauses: seq<string>): (r: nat)
  {
    if clauses == [] then 0 else Placeholders(clauses[0]) + PlaceholdersIn(clauses[1..])
  }

  /** The list `?,?,...,?` with n marks: strings.Repeat("?,", n-1) + "?". */
  function Marks(n: nat): (r: string)
    requires n > 0
  {
    Repeat("?,", n - 1) + "?"
  }

  /** `column IN (?,...,?)` with one placeholder per value. */
  function InClause(column: string, n: nat): (r: string)
    requires n > 0
  {
    column + " IN (" + Marks(n) + ")"
  }

  /** Nothing when there is no clause, else ` WHERE ` and the clauses joined by ` AND `. */
  function Where(clauses: seq<string>): (r: string)
  {
    if |clauses| == 0 then "" else " WHERE " + Join(clauses, " AND ")
  }

  lemma {:induction false} CountConcat(c: char, a: string, b: string)
    ensures Count(c, a + b) == Count(c, a) + Count(c, b)
  {
    if a == [] {
      assert a + b == b;
    } else {
      assert (a + b)[1..] == a[1..] + b;
      CountConcat(c, a[1..], b);
    }
  }

  /** Text without a `?` holds no placeholder. */
  lemma {:induction false} NoPlaceholders(s: string)
    requires '?' !in s
    ensures Placeholders(s) == 0
  {
    if s != [] {
      assert forall i :: 0 <= i < |s[1..]| ==> s[1..][i] == s[i + 1];
      NoPlaceholders(s[1..]);
    }
  }

  lemma {:induction false} RepeatCount(c: char, s: string, n: nat)
    ensures Count(c, Repeat(s, n)) == n * Count(c, s)
  {
    if n > 0 {
      RepeatCount(c, s, n - 1);
      CountConcat(c, s, Repeat(s, n - 1));
    }
  }

  /** The mark list of n placeholders holds exactly n `?`. */
  lemma MarksCount(n: nat)
    requires n > 0
    ensures Placeholders(Marks(n)) == n
  {
    RepeatCount('?', "?,", n - 1);
    CountConcat('?', Repeat("?,", n - 1), "?");
  }

  /** The mark list is n copies of `?` joined by `,`. */
  lemma {:induction false} MarksAreJoinedMarks(n: nat)
    requires n > 0
    ensures Marks(n) == Join(seq(n, _ => "?"), ",")
  {
    if n > 1 {
      MarksAreJoinedMarks(n - 1);
      var rest := seq(n - 1, _ => "?");
      assert seq(n, _ => "?")[1..] == rest;
      calc {
        Marks(n);
        Repeat("?,", n - 1) + "?";
        ("?," + Repeat("?,", n - 2)) + "?";
        "?" + "," + (Repeat("?,", n - 2) + "?");
        "?" + "," + Join(rest, ",");
        Join(seq(n, _ => "?"), ",");
      }
    }
  }

  /** An IN clause over a column name free of `?` holds one placeholder per value. */
  lemma InClauseCount(column: string, n: nat)
    requires n > 0
    requires Placeholders(column) == 0
    ensures Placeholders(InClause(column, n)) == n
  {
    MarksCount(n);
    CountConcat('?', column, " IN (");
    CountConcat('?', column + " IN (", Marks(n));
    CountConcat('?', column + " IN (" + Marks(n), ")");
  }

  /** Joining with a separator free of `?` adds no placeholder of its own. */
  lemma {:induction false} JoinCount(elems: seq<string>, sep: string)
    requires Placeholders(sep) == 0
    ensures Placeholders(Join(elems, sep)) == PlaceholdersIn(elems)
  {
    if |elems| == 1 {
      assert elems[1..] == [];
    } else if |elems| > 1 {
      JoinCount(elems[1..], sep);
      CountConcat('?', elems[0], sep);
      CountConcat('?', elems[0] + sep, Join(elems[1..], sep));
    }
  }

  /** The WHERE suffix holds exactly the placeholders of its clauses. */
  lemma WhereCount(clauses: seq<string>)
    ensures Placeholders(Where(clauses)) == PlaceholdersIn(clauses)
    ensures Where(clauses) == "" <==> clauses == []
  {
    if |clauses| > 0 {
      JoinCount(clauses, " AND ");
      CountConcat('?', " WHERE ", Join(clauses, " AND "));
    }
  }
}
