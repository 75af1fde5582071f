/** `DBInsert`: rows collected into one value list, sent in queries of bounded size. */
module DbInsert {
  import opened Basics

  const MAX_QUERY_SIZE: nat := 8 * 1024 * 1024

  // ---------------------------------------------------------------- value lists

  /** The value list of some rows: `(row),(row),(row)`. */
  function Join(rows: seq<string>): string {
    if rows == [] then ""
    else "(" + rows[0] + ")" + (if |rows| == 1 then "" else "," + Join(rows[1..]))
  }

  /** Appending one row to a value list, as `addRow` does. */
  function Append(values: string, row: string): string {
    if values == "" then "(" + row + ")" else values + "," + "(" + row + ")"
  }

  lemma {:induction false} AppendJoins(rows: seq<string>, row: string)
    ensures Append(Join(rows), row) == Join(rows + [row])
  {
    if rows == [] {
      assert rows + [row] == [row];
    } else {
      var all := rows + [row];
      assert all[1..] == rows[1..] + [row] && all[0] == rows[0];
      var head, tail := "(" + rows[0] + ")", "," + "(" + row + ")";
      assert Join(all) == head + ("," + Join(all[1..]));
      if |rows| == 1 {
        assert all[1..] == [row];
        assert Join(all[1..]) == "(" + row + ")";
        assert Join(rows) == head + "" == head;
        assert head + ("," + ("(" + row + ")")) == head + "," + "(" + row + ")";
      } else {
        AppendJoins(rows[1..], row);
        assert Join(rows) == head + ("," + Join(rows[1..]));
        assert Join(all[1..]) == Join(rows[1..]) + "," + "(" + row + ")";
        assert head + ("," + (Join(rows[1..]) + "," + "(" + row + ")"))
            == (head + ("," + Join(rows[1..]))) + "," + "(" + row + ")";
      }
    }
  }

  predicate IsBoundary(s: string, p: nat) {
    p + 3 <= |s| && s[p] == ')' && s[p + 1] == ',' && s[p + 2] == '('
  }

  /** `rfind("),(", limit)`. */
  function RFind(s: string, limit: nat): Option<nat> {
    if IsBoundary(s, limit) then Some(limit)
    else if limit == 0 then None
    else RFind(s, limit - 1)
  }

  lemma {:induction false} RFindIsLast(s: string, limit: nat)
    ensures match RFind(s, limit)
            case None => forall p :: 0 <= p <= limit ==> !IsBoundary(s, p)
            case Some(p) => p <= limit && IsBoundary(s, p) && forall q :: p < q <= limit ==> !IsBoundary(s, q)
  {
    if !IsBoundary(s, limit) && limit > 0 {
      RFindIsLast(s, limit - 1);
    }
  }

  /** A row that does not look like a row boundary inside. */
  predicate Clean(row: string) {
    forall p :: 0 <= p < |row| ==> !IsBoundary(row, p)
  }

  /** Position of the parenthesis that closes row `k` (counted from 1). */
  function CloseAt(rows: seq<string>, k: nat): nat
    requires 1 <= k <= |rows|
  {
    if k == 1 then |rows[0]| + 1 else |rows[0]| + 3 + CloseAt(rows[1..], k - 1)
  }

  /** Position at which row `k` (counted from 0) starts. */
  function RowAt(rows: seq<string>, k: nat): nat
    requires k < |rows|
  {
    if k == 0 then 1 else CloseAt(rows, k) + 3
  }

  /** A boundary of a value list lies between two rows, or wholly inside one. */
  lemma {:induction false} BoundaryWhere(rows: seq<string>, p: nat) returns (inner: bool, k: nat, i: nat)
    requires IsBoundary(Join(rows), p)
    ensures inner ==> k < |rows| && IsBoundary(rows[k], i) && p == RowAt(rows, k) + i
    ensures !inner ==> 1 <= k < |rows| && p == CloseAt(rows, k)
  {
    var s, n := Join(rows), |rows[0]|;
    assert s[0] == '(' && s[n + 1] == ')';
    assert forall i :: 0 <= i < n ==> s[i + 1] == rows[0][i];
    if |rows| > 1 {
      assert s[n + 2] == ',' && s[n + 3..] == Join(rows[1..]);
    }
    if p <= n {
      inner, k, i := true, 0, p - 1;
    } else if p == n + 1 {
      inner, k, i := false, 1, 0;
    } else {
      inner, k, i := BoundaryWhere(rows[1..], p - n - 3);
      k := k + 1;
    }
  }

  /** A boundary inside a row is one of the value list, in front of the row's closing parenthesis. */
  lemma {:induction false} InnerIsBoundary(rows: seq<string>, k: nat, i: nat)
    requires k < |rows| && IsBoundary(rows[k], i)
    ensures IsBoundary(Join(rows), RowAt(rows, k) + i) && RowAt(rows, k) + i < CloseAt(rows, k + 1)
  {
    var s, n := Join(rows), |rows[0]|;
    if k == 0 {
      assert forall j :: 0 <= j < n ==> s[j + 1] == rows[0][j];
    } else {
      InnerIsBoundary(rows[1..], k - 1, i);
      assert s[n + 3..] == Join(rows[1..]);
      assert RowAt(rows, k) == n + 3 + RowAt(rows[1..], k - 1);
      assert CloseAt(rows, k + 1) == n + 3 + CloseAt(rows[1..], k);
    }
  }

  /** Between clean rows, and only there, are boundaries. */
  lemma BoundaryCloses(rows: seq<string>, p: nat) returns (k: nat)
    requires (forall i :: 0 <= i < |rows| ==> Clean(rows[i])) && IsBoundary(Join(rows), p)
    ensures 1 <= k < |rows| && p == CloseAt(rows, k)
  {
    var inner, at, i := BoundaryWhere(rows, p);
    k := at;
    if inner {
      assert false;
    }
  }

  lemma {:induction false} CloseSplits(rows: seq<string>, k: nat)
    requires 1 <= k < |rows|
    ensures var p := CloseAt(rows, k);
            && IsBoundary(Join(rows), p)
            && Join(rows)[..p + 1] == Join(rows[..k]) && Join(rows)[p + 2..] == Join(rows[k..])
  {
    var s, head, rest := Join(rows), "(" + rows[0] + ")", Join(rows[1..]);
    assert s == head + ("," + rest) && rest[0] == '(';
    if k == 1 {
      assert rows[..1] == [rows[0]];
    } else {
      CloseSplits(rows[1..], k - 1);
      var q := CloseAt(rows[1..], k - 1);
      assert rows[..k][1..] == rows[1..][..k - 1] && rows[1..][k - 1..] == rows[k..];
      Slices(head, rest, q);
    }
  }

  lemma Slices(head: string, rest: string, q: nat)
    requires q + 3 <= |rest|
    ensures var s, at := head + ("," + rest), |head| + 1 + q;
            && s[..at + 1] == head + ("," + rest[..q + 1]) && s[at + 2..] == rest[q + 2..]
            && (IsBoundary(rest, q) ==> IsBoundary(s, at))
  {
  }

  lemma {:induction false} CloseGrows(rows: seq<string>, j: nat, k: nat)
    requires 1 <= j < k <= |rows|
    ensures CloseAt(rows, j) + |rows[k - 1]| + 3 <= CloseAt(rows, k) < |Join(rows)|
    ensures CloseAt(rows, |rows|) == |Join(rows)| - 1
    decreases |rows|
  {
    if j > 1 {
      CloseGrows(rows[1..], j - 1, k - 1);
    } else if k > 2 {
      CloseGrows(rows[1..], 1, k - 1);
    } else if |rows| > 2 {
      CloseGrows(rows[1..], 1, 2);
    }
  }

  // ---------------------------------------------------------------- sending

  datatype Sent = Sent(ok: bool, batches: seq<string>)

  /** The first batch of a value list and what is left of the list. */
  function Cut(s: string, cap: nat): (r: Option<(string, string)>)
    requires s != ""
    ensures r.Some? ==> |r.value.1| < |s|
  {
    if cap < |s| then
      RFindIsLast(s, cap);
      match RFind(s, cap)
      case None => None
      case Some(p) => Some((s[..p + 1], s[p + 2..]))
    else Some((s, ""))
  }

  /** The loop of `execute`: `accept(i)` is the database's answer to the `i`-th query ever sent. */
  function Send(s: string, cap: nat, accept: nat -> bool, n: nat): Sent
    decreases |s|
  {
    if s == "" then Sent(true, [])
    else match Cut(s, cap)
      case None => Sent(false, [])
      case Some((batch, rest)) =>
        if !accept(n) then Sent(false, [batch])
        else
          var r := Send(rest, cap, accept, n + 1);
          Sent(r.ok, [batch] + r.batches)
  }

  /** What has been sent and what the rest will send make up `all`. */
  ghost predicate Sending(all: Sent, s: string, cap: nat, accept: nat -> bool, n: nat, sent: seq<string>) {
    var r := Send(s, cap, accept, n);
    all == Sent(r.ok, sent + r.batches)
  }

  /** One round of the loop. */
  lemma SendingStep(all: Sent, s: string, cap: nat, accept: nat -> bool, n: nat, sent: seq<string>)
    requires Sending(all, s, cap, accept, n, sent)
    ensures s == "" ==> all == Sent(true, sent)
    ensures s != "" ==>
              match Cut(s, cap)
              case None => all == Sent(false, sent)
              case Some((batch, rest)) =>
                if accept(n) then Sending(all, rest, cap, accept, n + 1, sent + [batch])
                else all == Sent(false, sent + [batch])
  {
    assert sent + [] == sent;
    if s != "" && Cut(s, cap).Some? && accept(n) {
      var (batch, rest) := Cut(s, cap).value;
      var more := Send(rest, cap, accept, n + 1).batches;
      assert sent + ([batch] + more) == sent + [batch] + more;
    }
  }

  /** Every row fits a query: with a parenthesis behind it, or two around it if it is the last. */
  predicate Fits(rows: seq<string>, cap: nat) {
    && (forall i :: 0 <= i < |rows| ==> |rows[i]| + 1 <= cap)
    && (rows != [] ==> |rows[|rows| - 1]| + 2 <= cap)
  }

  function Flatten(groups: seq<seq<string>>): seq<string> {
    if groups == [] then [] else groups[0] + Flatten(groups[1..])
  }

  /** How a value list of clean rows is cut: behind the last row that is closed early enough. */
  lemma CutRows(rows: seq<string>, cap: nat) returns (k: nat)
    requires rows != [] && forall i :: 0 <= i < |rows| ==> Clean(rows[i])
    ensures k <= |rows|
    ensures match Cut(Join(rows), cap)
            case None => k == 0 && !Fits(rows, cap)
            case Some((batch, rest)) =>
              k > 0 && batch == Join(rows[..k]) && rest == Join(rows[k..]) && |batch| <= cap + 1
              && (Fits(rows, cap) <==> Fits(rows[k..], cap))
  {
    var s := Join(rows);
    if |rows| > 1 {
      CloseGrows(rows, 1, |rows|);
    }
    if cap < |s| {
      RFindIsLast(s, cap);
      match RFind(s, cap) {
        case None =>
          k := 0;
          if |rows| > 1 {
            CloseSplits(rows, 1);
          }
        case Some(p) =>
          k := BoundaryCloses(rows, p);
          CloseSplits(rows, k);
          FitsSplits(rows, k, cap);
      }
    } else {
      k := |rows|;
      assert rows[..k] == rows && rows[k..] == [];
      RowsWithin(rows, cap);
    }
  }

  /** The first batch holds whole rows and the rest the other rows. */
  ghost predicate CutsWhole(rows: seq<string>, cap: nat)
    requires rows != []
  {
    exists k :: 1 <= k <= |rows| && Cut(Join(rows), cap) == Some((Join(rows[..k]), Join(rows[k..])))
  }

  /** Row `k` is the last one closed at or before `cap`, and the next row, as far as it is in reach,
      has no boundary inside. */
  predicate CutAt(rows: seq<string>, cap: nat, k: nat) {
    && 1 <= k < |rows| && CloseAt(rows, k) <= cap < |Join(rows)|
    && (k + 1 < |rows| ==> cap < CloseAt(rows, k + 1))
    && forall i :: 0 <= i < |rows[k]| && IsBoundary(rows[k], i) ==> cap < CloseAt(rows, k) + 3 + i
  }

  /** Which cuts of arbitrary rows, clean or not, end behind a whole row. */
  lemma CutsWholeIff(rows: seq<string>, cap: nat)
    requires rows != []
    ensures CutsWhole(rows, cap) <==> |Join(rows)| <= cap || exists k :: CutAt(rows, cap, k)
  {
    if |Join(rows)| <= cap {
      assert rows[..|rows|] == rows && rows[|rows|..] == [];
    } else {
      if CutsWhole(rows, cap) {
        var k :| 1 <= k <= |rows| && Cut(Join(rows), cap) == Some((Join(rows[..k]), Join(rows[k..])));
        WholeIsCutAt(rows, cap, k);
      }
      if k :| CutAt(rows, cap, k) {
        CutAtIsWhole(rows, cap, k);
      }
    }
  }

  lemma WholeIsCutAt(rows: seq<string>, cap: nat, k: nat)
    requires 1 <= k <= |rows| && cap < |Join(rows)|
    requires Cut(Join(rows), cap) == Some((Join(rows[..k]), Join(rows[k..])))
    ensures CutAt(rows, cap, k)
  {
    assert rows[..|rows|] == rows;
    CutLength(Join(rows), cap, Join(rows[..k]), Join(rows[k..]));
    if k == |rows| {
      assert false;
    } else {
      BatchLength(rows, k);
      NextIsBehind(rows, cap, k);
    }
  }

  lemma CutLength(s: string, cap: nat, batch: string, rest: string)
    requires cap < |s| && Cut(s, cap) == Some((batch, rest))
    ensures 1 <= |batch| < |s| && RFind(s, cap) == Some(|batch| - 1)
  {
    RFindIsLast(s, cap);
  }

  lemma BatchLength(rows: seq<string>, k: nat)
    requires 1 <= k < |rows|
    ensures |Join(rows[..k])| == CloseAt(rows, k) + 1
  {
    CloseSplits(rows, k);
  }

  lemma NextIsBehind(rows: seq<string>, cap: nat, k: nat)
    requires 1 <= k < |rows| && cap < |Join(rows)| && RFind(Join(rows), cap) == Some(CloseAt(rows, k))
    ensures CutAt(rows, cap, k)
  {
    RFindIsLast(Join(rows), cap);
    if k + 1 < |rows| {
      CloseSplits(rows, k + 1);
      CloseGrows(rows, k, k + 1);
    }
    forall i | 0 <= i < |rows[k]| && IsBoundary(rows[k], i)
      ensures cap < CloseAt(rows, k) + 3 + i
    {
      InnerIsBoundary(rows, k, i);
    }
  }

  lemma CutAtIsWhole(rows: seq<string>, cap: nat, k: nat)
    requires CutAt(rows, cap, k)
    ensures Cut(Join(rows), cap) == Some((Join(rows[..k]), Join(rows[k..])))
  {
    var s, p := Join(rows), CloseAt(rows, k);
    CloseSplits(rows, k);
    RFindIsLast(s, cap);
    var last := RFind(s, cap).value;
    if last != p {
      LastBehind(rows, cap, k, last);
    }
  }

  /** There is no boundary between the cut and the limit. */
  lemma LastBehind(rows: seq<string>, cap: nat, k: nat, q: nat)
    requires CutAt(rows, cap, k) && IsBoundary(Join(rows), q) && q <= cap
    ensures q <= CloseAt(rows, k)
  {
    var inner, at, i := BoundaryWhere(rows, q);
    if inner && at < k {
      InnerIsBoundary(rows, at, i);
      ClosesInOrder(rows, at + 1, k);
    } else if inner && at > k {
      ClosesInOrder(rows, k + 1, at);
    } else if !inner && at <= k {
      ClosesInOrder(rows, at, k);
    } else if !inner {
      ClosesInOrder(rows, k + 1, at);
    }
  }

  lemma ClosesInOrder(rows: seq<string>, j: nat, k: nat)
    requires 1 <= j <= k <= |rows|
    ensures CloseAt(rows, j) <= CloseAt(rows, k)
  {
    if j < k {
      CloseGrows(rows, j, k);
    }
  }

  /** Every cut on the way through arbitrary rows ends behind a whole row. */
  ghost predicate NeverTears(rows: seq<string>, cap: nat)
    decreases |rows|
  {
    rows == [] || |Join(rows)| <= cap
    || exists k :: 1 <= k < |rows| && CutAt(rows, cap, k) && NeverTears(rows[k..], cap)
  }

  /** The batches are the value lists of these groups of rows. */
  ghost predicate Whole(batches: seq<string>, groups: seq<seq<string>>) {
    && |batches| == |groups|
    && forall i :: 0 <= i < |groups| ==> groups[i] != [] && batches[i] == Join(groups[i])
  }

  lemma WholeConcat(a: seq<string>, ga: seq<seq<string>>, b: seq<string>, gb: seq<seq<string>>)
    requires Whole(a, ga) && Whole(b, gb)
    ensures Whole(a + b, ga + gb)
  {
    forall i | 0 <= i < |ga + gb|
      ensures (ga + gb)[i] != [] && (a + b)[i] == Join((ga + gb)[i])
    {
      if i >= |ga| {
        assert (ga + gb)[i] == gb[i - |ga|] && (a + b)[i] == b[i - |ga|];
      }
    }
  }

  /** Sent as a sequence of groups of whole rows, all of them, in order. */
  ghost predicate SentWhole(r: Sent, rows: seq<string>) {
    r.ok && exists groups :: Whole(r.batches, groups) && Flatten(groups) == rows
  }

  lemma OneBatch(rows: seq<string>, cap: nat, accept: nat -> bool, n: nat)
    requires rows != [] && |Join(rows)| <= cap && accept(n)
    ensures SentWhole(Send(Join(rows), cap, accept, n), rows)
  {
    JoinEnds(rows);
    var s, r := Join(rows), Send(Join(rows), cap, accept, n);
    assert Cut(s, cap) == Some((s, ""));
    assert Send("", cap, accept, n + 1) == Sent(true, []);
    assert r.batches == [s] + [] == [s];
    assert Whole(r.batches, [rows]);
    assert Flatten([rows]) == rows + Flatten([rows][1..]) == rows;
  }

  /** When are arbitrary rows, clean or not, sent without tearing one? To a database that accepts
      everything, exactly when every cut on the way ends behind a whole row. */
  lemma {:induction false} SendsWholeIff(rows: seq<string>, cap: nat, accept: nat -> bool, n: nat)
    requires forall i: nat :: accept(i)
    ensures SentWhole(Send(Join(rows), cap, accept, n), rows) <==> NeverTears(rows, cap)
    decreases |rows|
  {
    var r := Send(Join(rows), cap, accept, n);
    if rows == [] {
      assert Whole(r.batches, []) && Flatten([]) == rows;
    } else if |Join(rows)| <= cap {
      OneBatch(rows, cap, accept, n);
    } else {
      if SentWhole(r, rows) {
        var groups :| Whole(r.batches, groups) && Flatten(groups) == rows;
        var k := WholeTail(rows, cap, accept, n, groups);
        SendsWholeIff(rows[k..], cap, accept, n + 1);
      }
      if NeverTears(rows, cap) {
        var k :| 1 <= k < |rows| && CutAt(rows, cap, k) && NeverTears(rows[k..], cap);
        SendsWholeIff(rows[k..], cap, accept, n + 1);
        WholeHead(rows, cap, accept, n, k);
      }
    }
  }

  /** Whole groups begin with the first cut, and the other groups are what the rest sends. */
  lemma WholeTail(rows: seq<string>, cap: nat, accept: nat -> bool, n: nat, groups: seq<seq<string>>)
    returns (k: nat)
    requires rows != [] && cap < |Join(rows)| && accept(n)
    requires var r := Send(Join(rows), cap, accept, n);
             r.ok && Whole(r.batches, groups) && Flatten(groups) == rows
    ensures 1 <= k < |rows| && CutAt(rows, cap, k)
    ensures SentWhole(Send(Join(rows[k..]), cap, accept, n + 1), rows[k..])
  {
    JoinEnds(rows);
    var (batch, rest) := Cut(Join(rows), cap).value;
    var more := Send(rest, cap, accept, n + 1);
    assert Send(Join(rows), cap, accept, n).batches == [batch] + more.batches;
    assert groups == [groups[0]] + groups[1..];
    k := |groups[0]|;
    assert rows[..k] == groups[0] && rows[k..] == Flatten(groups[1..]);
    assert batch == Join(rows[..k]);
    FirstBatch(rows, cap, k);
    assert more.batches == ([batch] + more.batches)[1..];
    assert Whole(more.batches, groups[1..]);
  }

  /** A first batch that is the value list of the first rows leaves the value list of the others. */
  lemma FirstBatch(rows: seq<string>, cap: nat, k: nat)
    requires 1 <= k <= |rows| && cap < |Join(rows)|
    requires Cut(Join(rows), cap).Some? && Cut(Join(rows), cap).value.0 == Join(rows[..k])
    ensures k < |rows| && CutAt(rows, cap, k) && Cut(Join(rows), cap).value.1 == Join(rows[k..])
  {
    var s := Join(rows);
    assert rows[..|rows|] == rows;
    CutLength(s, cap, Join(rows[..k]), Cut(s, cap).value.1);
    if k == |rows| {
      assert false;
    }
    BatchLength(rows, k);
    CloseSplits(rows, k);
    NextIsBehind(rows, cap, k);
  }

  lemma WholeHead(rows: seq<string>, cap: nat, accept: nat -> bool, n: nat, k: nat)
    requires CutAt(rows, cap, k) && accept(n)
    requires SentWhole(Send(Join(rows[k..]), cap, accept, n + 1), rows[k..])
    ensures SentWhole(Send(Join(rows), cap, accept, n), rows)
  {
    JoinEnds(rows);
    CutAtIsWhole(rows, cap, k);
    var more := Send(Join(rows[k..]), cap, accept, n + 1);
    var groups :| Whole(more.batches, groups) && Flatten(groups) == rows[k..];
    OneGroupMore(rows, k, more.batches, groups);
  }

  lemma OneGroupMore(rows: seq<string>, k: nat, batches: seq<string>, groups: seq<seq<string>>)
    requires 1 <= k <= |rows| && Whole(batches, groups) && Flatten(groups) <= rows[k..]
    ensures Whole([Join(rows[..k])] + batches, [rows[..k]] + groups)
    ensures Flatten([rows[..k]] + groups) == rows[..k] + Flatten(groups) <= rows
    ensures Flatten(groups) == rows[k..] ==> Flatten([rows[..k]] + groups) == rows
  {
    assert ([rows[..k]] + groups)[1..] == groups;
    assert rows == rows[..k] + rows[k..];
    WholeConcat([Join(rows[..k])], [rows[..k]], batches, groups);
  }

  /** A row that fills its query up to the limit and has a boundary there is torn apart: one row, two
      batches, neither of which is a row. */
  lemma TornRow(filler: string, query: string, upsert: string, accept: nat -> bool, n: nat)
    requires 2 <= |filler| && |filler| + 1 == Room(query, upsert) && accept(n)
    ensures Send(Join([filler + "),(b"]), Room(query, upsert), accept, n).batches == ["(" + filler + ")", "(b)"]
  {
    var cap := Room(query, upsert);
    TornCut(filler, cap);
    var r := Send("(b)", cap, accept, n + 1);
    assert Cut("(b)", cap) == Some(("(b)", ""));
    assert r.batches == ["(b)"];
    assert ["(" + filler + ")"] + r.batches == ["(" + filler + ")", "(b)"];
  }

  lemma TornCut(filler: string, cap: nat)
    requires |filler| + 1 == cap
    ensures Cut(Join([filler + "),(b"]), cap) == Some(("(" + filler + ")", "(b)"))
  {
    var s, front := Join([filler + "),(b"]), "(" + filler + ")";
    assert s == front + ",(b)";
    assert |front| == cap + 1 && front[cap] == ')';
    assert s[cap] == ')' && s[cap + 1] == ',' && s[cap + 2] == '(';
    assert RFind(s, cap) == Some(cap);
    assert s[..cap + 1] == front && s[cap + 2..] == "(b)";
  }

  /** Such a row, for a query of no text: a row of eight megabytes. */
  lemma TornRowWitness(accept: nat -> bool) returns (filler: string)
    requires accept(0)
    ensures |filler| == MAX_QUERY_SIZE - 1
    ensures Send(Join([filler + "),(b"]), Room("", ""), accept, 0).batches == ["(" + filler + ")", "(b)"]
  {
    filler := seq(MAX_QUERY_SIZE - 1, i => 'a');
    TornRow(filler, "", "", accept, 0);
  }

  /** Rows in front of a cut that is early enough fit. */
  lemma FitsSplits(rows: seq<string>, k: nat, cap: nat)
    requires 1 <= k < |rows| && CloseAt(rows, k) <= cap
    ensures Fits(rows, cap) <==> Fits(rows[k..], cap)
  {
    forall i | 0 <= i < k
      ensures |rows[i]| + 1 <= cap
    {
      if i + 1 < k {
        CloseGrows(rows, i + 1, k);
      }
      CloseBehind(rows, i + 1);
    }
    FitsTail(rows, k, cap);
  }

  lemma FitsTail(rows: seq<string>, k: nat, cap: nat)
    requires 1 <= k < |rows| && forall i :: 0 <= i < k ==> |rows[i]| + 1 <= cap
    ensures Fits(rows, cap) <==> Fits(rows[k..], cap)
  {
    var tail := rows[k..];
    assert tail[|tail| - 1] == rows[|rows| - 1];
    if Fits(tail, cap) {
      forall i | k <= i < |rows|
        ensures |rows[i]| + 1 <= cap
      {
        assert rows[i] == tail[i - k];
      }
    }
  }

  lemma {:induction false} CloseBehind(rows: seq<string>, k: nat)
    requires 1 <= k <= |rows|
    ensures |rows[k - 1]| + 1 <= CloseAt(rows, k)
  {
    if k > 1 {
      CloseBehind(rows[1..], k - 1);
    }
  }

  lemma {:induction false} RowsWithin(rows: seq<string>, cap: nat)
    requires |Join(rows)| <= cap
    ensures Fits(rows, cap)
  {
    if rows != [] {
      RowsWithin(rows[1..], cap);
      assert forall i :: 1 <= i < |rows| ==> rows[i] == rows[1..][i - 1];
    }
  }

  /** The database accepts `count` queries in a row, from the `n`-th on. */
  predicate AcceptsAll(accept: nat -> bool, n: nat, count: nat)
    decreases count
  {
    count > 0 ==> accept(n) && AcceptsAll(accept, n + 1, count - 1)
  }

  /** Each batch is the value list of its group of rows, at most one character above the room. */
  ghost predicate Carries(batches: seq<string>, groups: seq<seq<string>>, cap: nat) {
    Whole(batches, groups) && forall i :: 0 <= i < |batches| ==> |batches[i]| <= cap + 1
  }

  /** Clean rows are sent in order, split only between rows, in batches one longer than the room
      at most; all of them are sent exactly when each fits and the database accepts each query. */
  lemma {:induction false} SendsRows(rows: seq<string>, cap: nat, accept: nat -> bool, n: nat)
    returns (groups: seq<seq<string>>)
    requires forall i :: 0 <= i < |rows| ==> Clean(rows[i])
    ensures var r := Send(Join(rows), cap, accept, n);
            && Carries(r.batches, groups, cap) && Flatten(groups) <= rows
            && (r.ok ==> Flatten(groups) == rows)
            && (r.ok <==> Fits(rows, cap) && AcceptsAll(accept, n, |groups|))
    decreases |rows|
  {
    if rows == [] {
      groups := [];
    } else {
      var k := CutRows(rows, cap);
      if k == 0 {
        groups := [];
      } else if !accept(n) {
        groups := [rows[..k]];
        SendsMore(rows, k, [], cap, []);
      } else {
        var more := SendsRows(rows[k..], cap, accept, n + 1);
        groups := [rows[..k]] + more;
        SendsMore(rows, k, more, cap, Send(Join(rows[k..]), cap, accept, n + 1).batches);
      }
    }
  }

  lemma SendsMore(rows: seq<string>, k: nat, more: seq<seq<string>>, cap: nat, batches: seq<string>)
    requires 1 <= k <= |rows| && Flatten(more) <= rows[k..] && Carries(batches, more, cap)
    requires |Join(rows[..k])| <= cap + 1
    ensures Flatten([rows[..k]] + more) <= rows
    ensures Flatten(more) == rows[k..] ==> Flatten([rows[..k]] + more) == rows
    ensures Carries([Join(rows[..k])] + batches, [rows[..k]] + more, cap)
  {
    OneGroupMore(rows, k, batches, more);
  }

  // ---------------------------------------------------------------- query texts

  /** The room for values, computed in an unsigned type. */
  function Room(query: string, upsert: string): nat {
    (MAX_QUERY_SIZE - |query| - |upsert|) % U64
  }

  function Text(query: string, upsert: string, batch: string): string {
    query + " " + batch + upsert
  }

  function Texts(query: string, upsert: string, batches: seq<string>): (texts: seq<string>)
    ensures |texts| == |batches|
    ensures forall i :: 0 <= i < |batches| ==> texts[i] == Text(query, upsert, batches[i])
  {
    if batches == [] then [] else [Text(query, upsert, batches[0])] + Texts(query, upsert, batches[1..])
  }

  lemma {:induction false} TextsConcat(query: string, upsert: string, a: seq<string>, b: seq<string>)
    ensures Texts(query, upsert, a + b) == Texts(query, upsert, a) + Texts(query, upsert, b)
  {
    if a == [] {
      assert a + b == b;
    } else {
      assert (a + b)[1..] == a[1..] + b;
      TextsConcat(query, upsert, a[1..], b);
    }
  }

  /** Between two rounds of `execute`: the queries logged so far, and what is still to be sent. */
  ghost predicate Progress(log0: seq<string>, log: seq<string>, query: string, upsert: string, accept: nat -> bool,
                           all: Sent, s: string, sent: seq<string>, ok: bool) {
    && log == log0 + Texts(query, upsert, sent)
    && (s != "" ==> s[|s| - 1] == ')')
    && (if ok then Sending(all, s, Room(query, upsert), accept, |log|, sent) else all == Sent(false, sent))
  }

  lemma ProgressStep(log0: seq<string>, log: seq<string>, query: string, upsert: string, accept: nat -> bool,
                     all: Sent, s: string, sent: seq<string>, batch: string, left: string)
    requires Progress(log0, log, query, upsert, accept, all, s, sent, true) && s != ""
    requires Cut(s, Room(query, upsert)) == Some((batch, left)) && (left != "" ==> left[|left| - 1] == ')')
    ensures Progress(log0, log + [Text(query, upsert, batch)], query, upsert, accept, all, left, sent + [batch],
                     accept(|log|))
  {
    SendingStep(all, s, Room(query, upsert), accept, |log|, sent);
    TextsConcat(query, upsert, sent, [batch]);
    assert Texts(query, upsert, [batch]) == [Text(query, upsert, batch)];
  }

  /** Every query sent for clean rows exceeds the size limit by at most two characters. */
  lemma QueriesAreBounded(rows: seq<string>, query: string, upsert: string, accept: nat -> bool, n: nat)
    requires (forall i :: 0 <= i < |rows| ==> Clean(rows[i])) && |query| + |upsert| <= MAX_QUERY_SIZE
    ensures var texts := Texts(query, upsert, Send(Join(rows), Room(query, upsert), accept, n).batches);
            forall i :: 0 <= i < |texts| ==> |texts[i]| <= MAX_QUERY_SIZE + 2
  {
    var groups := SendsRows(rows, Room(query, upsert), accept, n);
    var batches := Send(Join(rows), Room(query, upsert), accept, n).batches;
    forall i | 0 <= i < |batches|
      ensures |Text(query, upsert, batches[i])| <= MAX_QUERY_SIZE + 2
    {
      TextLength(query, upsert, batches[i]);
    }
  }

  /** A query is the beginning of the statement, a space, the values, and the update clause. */
  lemma TextParts(query: string, upsert: string, batch: string)
    ensures var text, at := Text(query, upsert, batch), |query| + 1;
            && |text| == at + |batch| + |upsert| && text[..|query|] == query && text[|query|] == ' '
            && text[at..at + |batch|] == batch && text[at + |batch|..] == upsert
  {
  }

  lemma TextLength(query: string, upsert: string, batch: string)
    requires |query| + |upsert| <= MAX_QUERY_SIZE
    ensures |Text(query, upsert, batch)| == MAX_QUERY_SIZE - Room(query, upsert) + |batch| + 1
  {
  }

  /** The bound is reached: a first row that just fits makes a query of exactly that size. */
  lemma BoundIsReached(first: string, second: string, query: string, upsert: string)
    requires Clean(first) && Clean(second) && |query| + |upsert| <= MAX_QUERY_SIZE
    requires |first| + 1 == Room(query, upsert)
    ensures var cut := Cut(Join([first, second]), Room(query, upsert));
            cut.Some? && |Text(query, upsert, cut.value.0)| == MAX_QUERY_SIZE + 2
  {
    var rows, cap := [first, second], Room(query, upsert);
    assert CloseAt(rows, 1) == cap;
    CloseSplits(rows, 1);
    CloseGrows(rows, 1, 2);
    RFindIsLast(Join(rows), cap);
    assert rows[..1] == [first];
  }

  // ---------------------------------------------------------------- adding rows

  function Volume(rows: seq<string>): nat {
    if rows == [] then 0 else Volume(rows[..|rows| - 1]) + |rows[|rows| - 1]|
  }

  /** The length counted for rows is that of their value list without parentheses and commas. */
  lemma {:induction false} VolumeIs(rows: seq<string>)
    requires rows != []
    ensures Volume(rows) + 3 * |rows| - 1 == |Join(rows)|
    decreases |rows|
  {
    var front, last := rows[..|rows| - 1], rows[|rows| - 1];
    assert front + [last] == rows;
    AppendJoins(front, last);
    if front != [] {
      VolumeIs(front);
      JoinEnds(front);
    }
  }

  /** The rows that `addRow` itself sends while `rows` are added one by one: when the length counted
      so far exceeds the packet size, everything collected before, again, because nothing is
      cleared after a query. */
  function SentByAdding(rows: seq<string>, queryLength: nat, maxPacket: nat): seq<string> {
    if rows == [] then []
    else
      var front := rows[..|rows| - 1];
      SentByAdding(front, queryLength, maxPacket) + (if queryLength + Volume(rows) > maxPacket then front else [])
  }

  /** Adding repeats no row if and only if the packet size was never exceeded, or there was only one
      row. */
  lemma SentOnceIff(rows: seq<string>, queryLength: nat, maxPacket: nat)
    ensures SentByAdding(rows, queryLength, maxPacket) + rows == rows
        <==> |rows| <= 1 || queryLength + Volume(rows) <= maxPacket
  {
    NothingSentEarly(rows, queryLength, maxPacket);
    var early := SentByAdding(rows, queryLength, maxPacket);
    assert early == [] ==> early + rows == rows;
    assert |early + rows| == |early| + |rows|;
  }

  lemma {:induction false} NothingSentEarly(rows: seq<string>, queryLength: nat, maxPacket: nat)
    ensures SentByAdding(rows, queryLength, maxPacket) == []
        <==> |rows| <= 1 || queryLength + Volume(rows) <= maxPacket
    decreases |rows|
  {
    if rows != [] {
      NothingSentEarly(rows[..|rows| - 1], queryLength, maxPacket);
    }
  }

  /** The rows held, every row ever offered, and the queries the database was asked. */
  datatype Ledger = Ledger(rows: seq<string>, offered: seq<string>, queries: seq<string>)

  /** `addRow`: past the packet size everything held is sent first. A row whose sending fails is
      not taken, but it stays counted. */
  function Added(l: Ledger, row: string, query: string, upsert: string, maxPacket: nat, accept: nat -> bool): Ledger {
    var offered := l.offered + [row];
    if |query| + Volume(offered) <= maxPacket then Ledger(l.rows + [row], offered, l.queries)
    else
      var r := Send(Join(l.rows), Room(query, upsert), accept, |l.queries|);
      Ledger(if r.ok then l.rows + [row] else l.rows, offered, l.queries + Texts(query, upsert, r.batches))
  }

  /** One more row, whatever the database answers: below the packet size it is taken and nothing is sent;
      past it, all that is held is sent, and the row is taken if and only if that succeeds. Its length
      is counted in any case. */
  lemma AddedIff(l: Ledger, row: string, query: string, upsert: string, maxPacket: nat, accept: nat -> bool)
    ensures var l' := Added(l, row, query, upsert, maxPacket, accept);
            var r := Send(Join(l.rows), Room(query, upsert), accept, |l.queries|);
            && l'.offered == l.offered + [row]
            && (|query| + Volume(l.offered) + |row| <= maxPacket ==>
                  l'.rows == l.rows + [row] && l'.queries == l.queries)
            && (|query| + Volume(l.offered) + |row| > maxPacket ==>
                  l'.queries == l.queries + Texts(query, upsert, r.batches)
                  && l'.rows == l.rows + (if r.ok then [row] else []))
  {
    assert (l.offered + [row])[..|l.offered|] == l.offered;
    assert l.rows + [] == l.rows;
  }

  function AddedAll(rows: seq<string>, query: string, upsert: string, maxPacket: nat, accept: nat -> bool): Ledger {
    if rows == [] then Ledger([], [], [])
    else Added(AddedAll(rows[..|rows| - 1], query, upsert, maxPacket, accept), rows[|rows| - 1],
               query, upsert, maxPacket, accept)
  }

  /** Rows that fit in a query wherever they stand. */
  ghost predicate Good(rows: seq<string>, cap: nat) {
    forall i :: 0 <= i < |rows| ==> Clean(rows[i]) && |rows[i]| + 2 <= cap
  }

  lemma {:induction false} FlattenConcat(a: seq<seq<string>>, b: seq<seq<string>>)
    ensures Flatten(a + b) == Flatten(a) + Flatten(b)
  {
    if a == [] {
      assert a + b == b;
    } else {
      assert (a + b)[1..] == a[1..] + b;
      FlattenConcat(a[1..], b);
    }
  }

  lemma {:induction false} AlwaysAccepts(accept: nat -> bool, n: nat, count: nat)
    requires forall i: nat :: accept(i)
    ensures AcceptsAll(accept, n, count)
    decreases count
  {
    if count > 0 {
      AlwaysAccepts(accept, n + 1, count - 1);
    }
  }

  /** Good rows, sent to a database that accepts everything, after earlier batches. */
  lemma SendsAfter(rows: seq<string>, query: string, upsert: string, accept: nat -> bool, n: nat,
                   batches0: seq<string>, groups0: seq<seq<string>>)
    returns (batches: seq<string>, groups: seq<seq<string>>)
    requires Good(rows, Room(query, upsert)) && (forall i: nat :: accept(i))
    requires Carries(batches0, groups0, Room(query, upsert))
    ensures var r := Send(Join(rows), Room(query, upsert), accept, n);
            r.ok && Texts(query, upsert, batches) == Texts(query, upsert, batches0) + Texts(query, upsert, r.batches)
    ensures Carries(batches, groups, Room(query, upsert)) && Flatten(groups) == Flatten(groups0) + rows
  {
    var more := SendsGood(rows, Room(query, upsert), accept, n);
    var sent := Send(Join(rows), Room(query, upsert), accept, n).batches;
    batches, groups := batches0 + sent, groups0 + more;
    TextsConcat(query, upsert, batches0, sent);
    FlattenConcat(groups0, more);
    CarriesConcat(batches0, groups0, sent, more, Room(query, upsert));
  }

  lemma CarriesConcat(a: seq<string>, ga: seq<seq<string>>, b: seq<string>, gb: seq<seq<string>>, cap: nat)
    requires Carries(a, ga, cap) && Carries(b, gb, cap)
    ensures Carries(a + b, ga + gb, cap)
  {
    WholeConcat(a, ga, b, gb);
  }

  lemma SendsGood(rows: seq<string>, cap: nat, accept: nat -> bool, n: nat) returns (groups: seq<seq<string>>)
    requires Good(rows, cap) && (forall i: nat :: accept(i))
    ensures var r := Send(Join(rows), cap, accept, n); r.ok && Carries(r.batches, groups, cap)
    ensures Flatten(groups) == rows
  {
    groups := SendsRows(rows, cap, accept, n);
    AlwaysAccepts(accept, n, |groups|);
  }

  lemma {:induction false} AddingSends(rows: seq<string>, query: string, upsert: string, maxPacket: nat,
                                       accept: nat -> bool)
    returns (batches: seq<string>, groups: seq<seq<string>>)
    requires Good(rows, Room(query, upsert)) && (forall i: nat :: accept(i))
    ensures AddedAll(rows, query, upsert, maxPacket, accept) == Ledger(rows, rows, Texts(query, upsert, batches))
    ensures Carries(batches, groups, Room(query, upsert)) && Flatten(groups) == SentByAdding(rows, |query|, maxPacket)
    decreases |rows|
  {
    if rows == [] {
      batches, groups := [], [];
    } else {
      var front, last := rows[..|rows| - 1], rows[|rows| - 1];
      assert rows == front + [last];
      batches, groups := AddingSends(front, query, upsert, maxPacket, accept);
      if |query| + Volume(rows) > maxPacket {
        batches, groups := SendsAfter(front, query, upsert, accept, |batches|, batches, groups);
      }
    }
  }

  /** Adding good rows and executing once, with a database that accepts everything: the queries
      carry, in order and split between rows only, the rows that adding sent and then all rows. */
  lemma AddThenExecute(rows: seq<string>, query: string, upsert: string, maxPacket: nat, accept: nat -> bool)
    returns (batches: seq<string>, groups: seq<seq<string>>)
    requires Good(rows, Room(query, upsert)) && (forall i: nat :: accept(i))
    ensures var l := AddedAll(rows, query, upsert, maxPacket, accept);
            var r := Send(Join(l.rows), Room(query, upsert), accept, |l.queries|);
            r.ok && l.queries + Texts(query, upsert, r.batches) == Texts(query, upsert, batches)
    ensures Carries(batches, groups, Room(query, upsert))
    ensures Flatten(groups) == SentByAdding(rows, |query|, maxPacket) + rows
    ensures Flatten(groups) == rows <==> |rows| <= 1 || |query| + Volume(rows) <= maxPacket
  {
    batches, groups := AddingSends(rows, query, upsert, maxPacket, accept);
    batches, groups := SendsAfter(rows, query, upsert, accept, |batches|, batches, groups);
    SentOnceIff(rows, |query|, maxPacket);
  }

  lemma {:induction false} JoinEnds(rows: seq<string>)
    requires rows != []
    ensures Join(rows) != "" && Join(rows)[|Join(rows)| - 1] == ')'
  {
    if |rows| > 1 {
      JoinEnds(rows[1..]);
    }
  }

  // ---------------------------------------------------------------- the classes

  class Database {
    const accept: nat -> bool
    var queries: seq<string>

    constructor (accept: nat -> bool)
      ensures queries == [] && this.accept == accept
    {
      this.accept, queries := accept, [];
    }

    method ExecuteQuery(query: string) returns (ok: bool)
      modifies this
      ensures queries == old(queries) + [query] && ok == accept(|old(queries)|)
    {
      ok := accept(|queries|);
      queries := queries + [query];
    }
  }

  class DBInsert {
    const db: Database
    const query: string
    const upsert: string
    const maxPacketSize: nat
    var values: string
    var length: nat
    ghost var rows: seq<string>
    ghost var offered: seq<string>

    /** The value list belongs to the rows taken; the length counts every row ever offered. */
    ghost predicate Valid()
      reads this
    {
      values == Join(rows) && length == |query| + Volume(offered)
    }

    constructor (db: Database, query: string, upsert: string, maxPacketSize: nat)
      ensures Valid() && rows == [] && offered == []
      ensures this.db == db && this.query == query && this.upsert == upsert
    {
      this.db, this.query, this.upsert, this.maxPacketSize := db, query, upsert, maxPacketSize;
      values, length, rows, offered := "", |query|, [], [];
    }

    /** One cut of the loop of `execute`; the batch loses the comma it ends with. */
    static method NextBatch(currentBatch: string, cap: nat) returns (found: bool, batchValues: string, left: string)
      requires currentBatch != "" && currentBatch[|currentBatch| - 1] == ')'
      ensures found == Cut(currentBatch, cap).Some?
      ensures found ==> Cut(currentBatch, cap) == Some((batchValues, left)) && |left| < |currentBatch|
      ensures found && left != "" ==> left[|left| - 1] == ')'
    {
      var cutPos := cap;
      if cutPos < |currentBatch| {
        var at := RFind(currentBatch, cutPos);
        RFindIsLast(currentBatch, cutPos);
        if at == None {
          return false, "", "";
        }
        cutPos := at.value + 2;
      } else {
        cutPos := |currentBatch|;
        assert currentBatch[..cutPos] == currentBatch && currentBatch[cutPos..] == "";
      }
      batchValues := currentBatch[..cutPos];
      if batchValues[|batchValues| - 1] == ',' {
        batchValues := batchValues[..|batchValues| - 1];
        assert batchValues == currentBatch[..cutPos - 1];
      }
      left := currentBatch[cutPos..];
      found := true;
    }

    /** `execute`. Neither the values nor the length are reset. */
    method Execute() returns (ok: bool)
      requires values != "" ==> values[|values| - 1] == ')'
      modifies db
      ensures var r := Send(values, Room(query, upsert), db.accept, |old(db.queries)|);
              ok == r.ok && db.queries == old(db.queries) + Texts(query, upsert, r.batches)
    {
      ghost var all := Send(values, Room(query, upsert), db.accept, |db.queries|);
      if values == "" {
        return true;
      }
      assert [] + all.batches == all.batches;
      ghost var sent: seq<string> := [];
      var currentBatch := values;
      ok := true;
      while ok && currentBatch != ""
        invariant Progress(old(db.queries), db.queries, query, upsert, db.accept, all, currentBatch, sent, ok)
        decreases ok, |currentBatch|
      {
        SendingStep(all, currentBatch, Room(query, upsert), db.accept, |db.queries|, sent);
        var found, batchValues, left := NextBatch(currentBatch, Room(query, upsert));
        if !found {
          return false;
        }
        ProgressStep(old(db.queries), db.queries, query, upsert, db.accept, all, currentBatch, sent, batchValues, left);
        sent := sent + [batchValues];
        currentBatch := left;
        ok := db.ExecuteQuery(Text(query, upsert, batchValues));
      }
      if ok {
        SendingStep(all, currentBatch, Room(query, upsert), db.accept, |db.queries|, sent);
      }
    }

    /** What the object holds, and what the database has been asked. */
    ghost function View(): Ledger
      reads this, db
    {
      Ledger(rows, offered, db.queries)
    }

    method AddRow(row: string) returns (ok: bool)
      requires Valid()
      modifies this, db
      ensures Valid() && View() == Added(old(View()), row, query, upsert, maxPacketSize, db.accept)
      ensures ok == (rows == old(rows) + [row])
    {
      assert (offered + [row])[..|offered|] == offered;
      if rows != [] {
        JoinEnds(rows);
      }
      length := length + |row|;
      offered := offered + [row];
      if length > maxPacketSize {
        var done := Execute();
        if !done {
          return false;
        }
      }
      AppendJoins(rows, row);
      if values == "" {
        values := "(" + row + ")";
      } else {
        values := values + "," + "(" + row + ")";
      }
      rows := rows + [row];
      ok := true;
    }
  }
}
