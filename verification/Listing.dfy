/** The one order every task query uses: `ORDER BY priority ASC, id ASC`. */
module Listing {
  import opened Common
  import opened Store

  predicate Before(tasks: map<string, Task>, a: string, b: string)
    requires a in tasks && b in tasks
  {
    tasks[a].priority < tasks[b].priority || (tasks[a].priority == tasks[b].priority && StrLess(a, b))
  }

  predicate IsLeast(tasks: map<string, Task>, ids: set<string>, x: string)
    requires ids <= tasks.Keys
  {
    x in ids && forall y | y in ids :: y == x || Before(tasks, x, y)
  }

  lemma BeforeIsStrictOrder(tasks: map<string, Task>, a: string, b: string)
    requires a in tasks && b in tasks
    ensures a == b || Before(tasks, a, b) || Before(tasks, b, a)
    ensures !(Before(tasks, a, b) && Before(tasks, b, a))
    ensures !Before(tasks, a, a)
  {
    StrLessTotal(a, b);
    StrLessTotal(a, a);
  }

  lemma BeforeTrans(tasks: map<string, Task>, a: string, b: string, c: string)
    requires a in tasks && b in tasks && c in tasks && Before(tasks, a, b) && Before(tasks, b, c)
    ensures Before(tasks, a, c)
  {
    if tasks[a].priority == tasks[b].priority == tasks[c].priority {
      StrLessTrans(a, b, c);
    }
  }

  lemma {:induction false} LeastExists(tasks: map<string, Task>, ids: set<string>)
    requires ids <= tasks.Keys && ids != {}
    ensures exists x :: IsLeast(tasks, ids, x)
  {
    var y :| y in ids;
    var rest := ids - {y};
    assert ids == rest + {y};
    if rest == {} {
      assert IsLeast(tasks, ids, y);
    } else {
      LeastExists(tasks, rest);
      var x :| IsLeast(tasks, rest, x);
      BeforeIsStrictOrder(tasks, x, y);
      if Before(tasks, x, y) {
        assert IsLeast(tasks, ids, x);
      } else {
        forall z | z in ids ensures z == y || Before(tasks, y, z) {
          if z != x && z != y {
            BeforeTrans(tasks, y, x, z);
          }
        }
        assert IsLeast(tasks, ids, y);
      }
    }
  }

  lemma LeastUnique(tasks: map<string, Task>, ids: set<string>, x: string, y: string)
    requires ids <= tasks.Keys && IsLeast(tasks, ids, x) && IsLeast(tasks, ids, y)
    ensures x == y
  {
    BeforeIsStrictOrder(tasks, x, y);
  }

  ghost predicate Ordered(tasks: map<string, Task>, rows: seq<string>)
    requires Elems(rows) <= tasks.Keys
  {
    forall i, j :: 0 <= i < j < |rows| ==> rows[i] in tasks && rows[j] in tasks && Before(tasks, rows[i], rows[j])
  }

  function Least(tasks: map<string, Task>, ids: set<string>): (x: string)
    requires ids <= tasks.Keys && ids != {}
    ensures IsLeast(tasks, ids, x)
  {
    LeastExists(tasks, ids);
    assert forall x, y | x in ids && y in ids && IsLeast(tasks, ids, x) && IsLeast(tasks, ids, y) :: x == y by {
      forall x, y | x in ids && y in ids && IsLeast(tasks, ids, x) && IsLeast(tasks, ids, y) ensures x == y {
        LeastUnique(tasks, ids, x, y);
      }
    }
    var x :| x in ids && IsLeast(tasks, ids, x);
    x
  }

  /** The rows of a query that selects `ids`, in the order the database returns them. */
  function Rows(tasks: map<string, Task>, ids: set<string>): seq<string>
    requires ids <= tasks.Keys
  {
    if ids == {} then []
    else
      var x := Least(tasks, ids);
      [x] + Rows(tasks, ids - {x})
  }

  lemma {:induction false} RowsElems(tasks: map<string, Task>, ids: set<string>)
    requires ids <= tasks.Keys
    ensures Elems(Rows(tasks, ids)) == ids && NoDup(Rows(tasks, ids))
  {
    if ids != {} {
      var x := Least(tasks, ids);
      var rest := Rows(tasks, ids - {x});
      RowsElems(tasks, ids - {x});
      assert Elems([x] + rest) == {x} + Elems(rest);
      assert x !in Elems(rest);
    }
  }

  lemma ConsOrdered(tasks: map<string, Task>, x: string, rest: seq<string>)
    requires Elems(rest) <= tasks.Keys && Ordered(tasks, rest) && x in tasks
    requires forall y | y in rest :: y in tasks && Before(tasks, x, y)
    ensures Elems([x] + rest) <= tasks.Keys && Ordered(tasks, [x] + rest)
  {
    var rows := [x] + rest;
    forall y | y in Elems(rows) ensures y in tasks.Keys {
      if y != x {
        assert y in Elems(rest);
      }
    }
    forall i, j | 0 <= i < j < |rows| ensures rows[i] in tasks && rows[j] in tasks && Before(tasks, rows[i], rows[j]) {
      assert rows[j] == rest[j - 1] && rest[j - 1] in rest;
      if i > 0 {
        assert rows[i] == rest[i - 1];
      }
    }
  }

  lemma {:induction false} RowsOrdered(tasks: map<string, Task>, ids: set<string>)
    requires ids <= tasks.Keys
    ensures Elems(Rows(tasks, ids)) == ids && Ordered(tasks, Rows(tasks, ids))
  {
    RowsElems(tasks, ids);
    if ids != {} {
      var x := Least(tasks, ids);
      var rest := Rows(tasks, ids - {x});
      RowsOrdered(tasks, ids - {x});
      forall y | y in rest ensures y in tasks && Before(tasks, x, y) {
        assert y in Elems(rest);
      }
      ConsOrdered(tasks, x, rest);
    }
  }

  /** Two orderly listings of the same rows are the same listing. */
  lemma {:induction false} OrderedUnique(tasks: map<string, Task>, a: seq<string>, b: seq<string>)
    requires Elems(a) == Elems(b) <= tasks.Keys && Ordered(tasks, a) && Ordered(tasks, b)
    ensures a == b
  {
    EmptyElems(a);
    EmptyElems(b);
    if a != [] {
      FirstIsLeast(tasks, a);
      FirstIsLeast(tasks, b);
      LeastUnique(tasks, Elems(a), a[0], b[0]);
      TailElems(tasks, a);
      TailElems(tasks, b);
      OrderedUnique(tasks, a[1..], b[1..]);
      assert a == [a[0]] + a[1..] && b == [b[0]] + b[1..];
    }
  }

  lemma EmptyElems(a: seq<string>)
    ensures Elems(a) == {} <==> a == []
  {
    if a != [] {
      assert a[0] in Elems(a);
    }
  }

  lemma FirstIsLeast(tasks: map<string, Task>, a: seq<string>)
    requires Elems(a) <= tasks.Keys && Ordered(tasks, a) && a != []
    ensures IsLeast(tasks, Elems(a), a[0])
  {
    assert a[0] in Elems(a);
    forall y | y in Elems(a) && y != a[0] ensures Before(tasks, a[0], y) {
      var j :| 0 <= j < |a| && a[j] == y;
      assert Before(tasks, a[0], a[j]);
    }
  }

  lemma TailElems(tasks: map<string, Task>, a: seq<string>)
    requires Elems(a) <= tasks.Keys && Ordered(tasks, a) && a != []
    ensures Elems(a[1..]) == Elems(a) - {a[0]}
    ensures Ordered(tasks, a[1..])
  {
    forall y | y in a[1..] ensures y != a[0] {
      var j :| 0 <= j < |a[1..]| && a[1..][j] == y;
      assert Before(tasks, a[0], a[j + 1]);
      assert a[0] in Elems(a);
      BeforeIsStrictOrder(tasks, a[0], a[0]);
    }
    assert a == [a[0]] + a[1..];
  }
}
