// In-memory similarity search: cosine scores, a stable descending sort and the first k rows.
// Arithmetic is over the reals; the norm is any function whose value is non-negative and
// squares to the sum of squares.
module VectorSearch {
  import opened Wrappers
  import opened Sequences

  type Vec = seq<real>

  type Norm = Vec -> real

  /** A stored chunk joined with its document. */
  datatype Chunk = Chunk(
    id: nat, tenant: nat, project: nat, embedding: Option<Vec>, documentDeleted: bool, filename: string)

  datatype SearchError = ShapeMismatch

  function Dot(a: Vec, b: Vec): real
    requires |a| == |b|
  {
    if a == [] then 0.0 else a[0] * b[0] + Dot(a[1..], b[1..])
  }

  function SumSquares(a: Vec): real {
    Dot(a, a)
  }

  ghost predicate IsNormOf(norm: Norm, v: Vec) {
    norm(v) >= 0.0 && norm(v) * norm(v) == SumSquares(v)
  }

  /** d / (x * y) */
  function Quotient(d: real, x: real, y: real): real
    requires x != 0.0 && y != 0.0
  {
    d / (x * y)
  }

  /** The cosine similarity, with 0 for a zero embedding. */
  function Score(norm: Norm, q: Vec, e: Vec): real
    requires norm(q) != 0.0 && (norm(e) != 0.0 ==> |q| == |e|)
  {
    if norm(e) == 0.0 then 0.0 else Quotient(Dot(q, e), norm(q), norm(e))
  }

  // ---------- The search ----------

  predicate Eligible(c: Chunk, tenant: nat, project: nat) {
    c.tenant == tenant && c.project == project && c.embedding.Some? && !c.documentDeleted
  }

  function Candidates(table: seq<Chunk>, tenant: nat, project: nat): (rows: seq<Chunk>)
    ensures forall i :: 0 <= i < |rows| ==> Eligible(rows[i], tenant, project) && rows[i] in table
    ensures forall c :: c in table && Eligible(c, tenant, project) ==> c in rows
  {
    var eligible := (c: Chunk) => Eligible(c, tenant, project);
    FilterMembers(table, eligible);
    var rows := Filter(table, eligible);
    assert forall i :: 0 <= i < |rows| ==> rows[i] in rows;
    rows
  }

  predicate HasEmbeddings(rows: seq<Chunk>) {
    forall i :: 0 <= i < |rows| ==> rows[i].embedding.Some?
  }

  predicate ShapesFit(norm: Norm, q: Vec, rows: seq<Chunk>)
    requires HasEmbeddings(rows)
  {
    forall i :: 0 <= i < |rows| ==> norm(rows[i].embedding.value) != 0.0 ==> |rows[i].embedding.value| == |q|
  }

  function Scores(norm: Norm, q: Vec, rows: seq<Chunk>): (s: seq<real>)
    requires HasEmbeddings(rows) && norm(q) != 0.0 && ShapesFit(norm, q, rows)
    ensures |s| == |rows|
    ensures forall i :: 0 <= i < |rows| ==> s[i] == Score(norm, q, rows[i].embedding.value)
  {
    if rows == [] then []
    else
      var n := |rows| - 1;
      assert forall i :: 0 <= i < n ==> rows[..n][i] == rows[i];
      Scores(norm, q, rows[..n]) + [Score(norm, q, rows[n].embedding.value)]
  }

  predicate Indices(order: seq<nat>, n: nat) {
    forall p :: 0 <= p < |order| ==> order[p] < n
  }

  /** Puts i before the first entry that scores strictly less. */
  function Insert(scores: seq<real>, order: seq<nat>, i: nat): (r: seq<nat>)
    requires i < |scores| && Indices(order, |scores|)
    ensures |r| == |order| + 1 && Indices(r, |scores|)
  {
    if order == [] then [i]
    else if scores[order[0]] < scores[i] then [i] + order
    else [order[0]] + Insert(scores, order[1..], i)
  }

  /** list.sort(key=score, reverse=True) on the first n rows: descending, ties in row order. */
  function Ranking(scores: seq<real>, n: nat): (r: seq<nat>)
    requires n <= |scores|
    ensures |r| == n && Indices(r, |scores|)
  {
    if n == 0 then [] else Insert(scores, Ranking(scores, n - 1), n - 1)
  }

  function Pick(rows: seq<Chunk>, order: seq<nat>): (r: seq<Chunk>)
    requires Indices(order, |rows|)
    ensures |r| == |order|
    ensures forall p :: 0 <= p < |order| ==> r[p] == rows[order[p]]
  {
    if order == [] then [] else [rows[order[0]]] + Pick(rows, order[1..])
  }

  /** The rows returned, as a function of the candidate rows. */
  function TopRows(norm: Norm, q: Vec, rows: seq<Chunk>, topK: nat): Result<seq<Chunk>, SearchError>
    requires HasEmbeddings(rows)
  {
    if norm(q) == 0.0 then Ok(Take(rows, topK))
    else if !ShapesFit(norm, q, rows) then Err(ShapeMismatch)
    else Ok(Pick(rows, Take(Ranking(Scores(norm, q, rows), |rows|), topK)))
  }

  // ---------- What the search promises, over the table itself ----------

  /** The score of a row, 0 where there is none to compute. */
  function ScoreOf(norm: Norm, q: Vec, c: Chunk): real {
    if c.embedding.Some? && norm(q) != 0.0 && (norm(c.embedding.value) != 0.0 ==> |q| == |c.embedding.value|) then
      Score(norm, q, c.embedding.value)
    else 0.0
  }

  /** Row i of the table goes before row j: by score, if the query has a direction, and among
      equals by position. */
  predicate GoesBefore(norm: Norm, q: Vec, table: seq<Chunk>, i: nat, j: nat)
    requires i < |table| && j < |table|
  {
    var (x, y) := (ScoreOf(norm, q, table[i]), ScoreOf(norm, q, table[j]));
    x > y || (x == y && i < j)
  }

  /** A row the query statement returns: the caller's tenant and project, with an embedding, of
      a document that is not deleted. */
  ghost predicate InScope(c: Chunk, tenant: nat, project: nat) {
    c.embedding != None && c.tenant == tenant && c.project == project && !c.documentDeleted
  }

  /** `order` lists rows in scope, each going before the next ones and before every row in
      scope that is left out, and leaves none out unless it has `topK` of them. */
  ghost predicate IsTop(norm: Norm, q: Vec, table: seq<Chunk>, tenant: nat, project: nat, topK: nat, order: seq<nat>) {
    && |order| <= topK
    && (forall p :: 0 <= p < |order| ==> order[p] < |table| && InScope(table[order[p]], tenant, project))
    && (forall p, r :: 0 <= p < r < |order| ==> GoesBefore(norm, q, table, order[p], order[r]))
    && (forall i: nat :: i < |table| && InScope(table[i], tenant, project) && i !in order ==>
          |order| == topK && forall p :: 0 <= p < |order| ==> GoesBefore(norm, q, table, order[p], i))
  }

  ghost predicate Misfit(norm: Norm, q: Vec, c: Chunk, tenant: nat, project: nat) {
    InScope(c, tenant, project) && norm(c.embedding.value) != 0.0 && |c.embedding.value| != |q|
  }

  /** What a search returns: an error exactly if some row in scope does not fit a query that has
      a direction, otherwise the top rows in order. */
  ghost predicate IsSearchResult(norm: Norm, q: Vec, table: seq<Chunk>, tenant: nat, project: nat, topK: nat,
                                 result: Result<seq<Chunk>, SearchError>)
  {
    && (result.Err? <==> norm(q) != 0.0 && exists c :: c in table && Misfit(norm, q, c, tenant, project))
    && (result.Ok? ==>
          exists order ::
            && IsTop(norm, q, table, tenant, project, topK, order)
            && |order| == |result.value|
            && forall p :: 0 <= p < |order| ==> result.value[p] == table[order[p]])
  }

  /** Where the rows in scope stand in the table. */
  lemma {:induction false} Positions(table: seq<Chunk>, keep: Chunk -> bool) returns (at: seq<nat>)
    ensures |at| == |Filter(table, keep)|
    ensures forall j :: 0 <= j < |at| ==>
              at[j] < |table| && keep(table[at[j]]) && Filter(table, keep)[j] == table[at[j]]
    ensures forall j, k :: 0 <= j < k < |at| ==> at[j] < at[k]
    ensures forall i: nat :: i < |table| && keep(table[i]) ==> i in at
  {
    at := [];
    if table != [] {
      hide Filter;
      var n := |table| - 1;
      at := Positions(table[..n], keep);
      FilterLast(table, keep);
      if keep(table[n]) {
        at := at + [n];
      }
      forall i: nat | i < |table| && keep(table[i])
        ensures i in at
      {
        assert i < n ==> table[..n][i] == table[i];
      }
    }
  }

  lemma FilterLast(table: seq<Chunk>, keep: Chunk -> bool)
    requires table != []
    ensures var n := |table| - 1;
            Filter(table, keep) == Filter(table[..n], keep) + if keep(table[n]) then [table[n]] else []
  {
    var n := |table| - 1;
    assert table == table[..n] + [table[n]];
    FilterAppend(table[..n], [table[n]], keep);
    assert [table[n]][1..] == [];
  }

  /** The first k of a ranking of the candidates are top rows of the table. */
  lemma RankedRowsAreTop(norm: Norm, q: Vec, table: seq<Chunk>, tenant: nat, project: nat, topK: nat,
                         at: seq<nat>, ranking: seq<nat>) returns (order: seq<nat>)
    requires forall j :: 0 <= j < |at| ==> at[j] < |table| && InScope(table[at[j]], tenant, project)
    requires forall i: nat :: i < |table| && InScope(table[i], tenant, project) ==> i in at
    requires |ranking| == |at| && forall x: nat :: x in ranking <==> x < |at|
    requires forall p :: 0 <= p < |ranking| ==> ranking[p] < |at|
    requires forall p, r :: 0 <= p < r < |ranking| ==> GoesBefore(norm, q, table, at[ranking[p]], at[ranking[r]])
    ensures IsTop(norm, q, table, tenant, project, topK, order)
    ensures |order| == |Take(ranking, topK)| && forall p :: 0 <= p < |order| ==> order[p] == at[Take(ranking, topK)[p]]
  {
    var top := Take(ranking, topK);
    order := seq(|top|, p requires 0 <= p < |top| => at[top[p]]);
    hide GoesBefore, InScope;
    forall r | 0 <= r < |top|
      ensures at[ranking[r]] in order
    {
      assert order[r] == at[ranking[r]];
    }
    forall i: nat | i < |table| && InScope(table[i], tenant, project) && i !in order
      ensures |order| == topK && forall p :: 0 <= p < |order| ==> GoesBefore(norm, q, table, order[p], i)
    {
      var j :| 0 <= j < |at| && at[j] == i;
      assert j in ranking;
      var r :| 0 <= r < |ranking| && ranking[r] == j;
    }
  }

  method SearchNumpy(norm: Norm, table: seq<Chunk>, tenant: nat, project: nat, query: Vec, topK: nat)
    returns (result: Result<seq<Chunk>, SearchError>)
    ensures result == TopRows(norm, query, Candidates(table, tenant, project), topK)
    ensures IsSearchResult(norm, query, table, tenant, project, topK, result)
  {
    hide Ranking, Dot, Quotient, Pick, Candidates, IsSearchResult;
    TopRowsAreTop(norm, query, table, tenant, project, topK);
    var rows := Candidates(table, tenant, project);
    if rows == [] {
      return Ok([]);
    }
    var queryNorm := norm(query);
    if queryNorm == 0.0 {
      return Ok(Take(rows, topK));
    }
    var scored: seq<real> := [];
    for i := 0 to |rows|
      invariant |scored| == i
      invariant forall j :: 0 <= j < i ==> norm(rows[j].embedding.value) != 0.0 ==> |rows[j].embedding.value| == |query|
      invariant forall j :: 0 <= j < i ==> scored[j] == Score(norm, query, rows[j].embedding.value)
    {
      var embedding := rows[i].embedding.value;
      var similarity := 0.0;
      if norm(embedding) != 0.0 {
        if |embedding| != |query| {
          return Err(ShapeMismatch);
        }
        similarity := Quotient(Dot(query, embedding), queryNorm, norm(embedding));
      }
      assert similarity == Score(norm, query, embedding);
      scored := scored + [similarity];
    }
    assert scored == Scores(norm, query, rows);
    var order := Ranking(scored, |rows|);
    result := Ok(Pick(rows, Take(order, topK)));
  }

  // ---------- Scores lie in [-1, 1] ----------

  lemma {:induction false} SumSquaresNonNegative(a: Vec)
    ensures SumSquares(a) >= 0.0
  {
    if a != [] {
      SumSquaresNonNegative(a[1..]);
      assert a[0] * a[0] >= 0.0;
    }
  }

  lemma SquareOrder(d: real, n: real)
    requires n >= 0.0 && d * d <= n * n
    ensures -n <= d <= n
  {
    if d > n {
      assert d * d - n * n == (d - n) * (d + n);
      Positive(d - n, d + n);
    }
    if d < -n {
      assert d * d - n * n == (-d - n) * (n - d);
      Positive(-d - n, n - d);
    }
  }

  lemma Positive(x: real, y: real)
    requires x > 0.0 && y > 0.0
    ensures x * y > 0.0
  {
  }

  lemma NonNegative(x: real, y: real)
    requires x >= 0.0 && y >= 0.0
    ensures x * y >= 0.0
  {
  }

  lemma ScaleOrder(x: real, y: real, k: real)
    requires x <= y && k >= 0.0
    ensures x * k <= y * k
  {
  }

  /** 2Dxy <= Ay^2 + Bx^2 whenever D^2 <= AB. */
  lemma CrossTerm(d: real, a: real, b: real, x: real, y: real)
    requires a >= 0.0 && b >= 0.0 && d * d <= a * b
    ensures 2.0 * (d * x * y) <= a * (y * y) + b * (x * x)
  {
    var p, q, r := a * (y * y), b * (x * x), d * x * y;
    var k := (x * x) * (y * y);
    NonNegative(a, y * y);
    NonNegative(b, x * x);
    NonNegative(x * x, y * y);
    RegroupSquares(d, a, b, x, y);
    ScaleOrder(d * d, a * b, k);
    assert r * r <= p * q;
    assert (p + q) * (p + q) - 4.0 * (p * q) == (p - q) * (p - q);
    assert (2.0 * r) * (2.0 * r) == 4.0 * (r * r);
    SquareOrder(2.0 * r, p + q);
  }

  lemma RegroupSquares(d: real, a: real, b: real, x: real, y: real)
    ensures (d * x * y) * (d * x * y) == (d * d) * ((x * x) * (y * y))
    ensures (a * (y * y)) * (b * (x * x)) == (a * b) * ((x * x) * (y * y))
  {
    var xx, yy := x * x, y * y;
    calc {
      (d * x * y) * (d * x * y);
      (d * (x * y)) * (d * (x * y));
      (d * d) * ((x * y) * (x * y));
      { assert (x * y) * (x * y) == xx * yy; }
      (d * d) * (xx * yy);
    }
    assert (a * yy) * (b * xx) == (a * b) * (yy * xx);
    assert yy * xx == xx * yy;
  }

  /** Cauchy-Schwarz. */
  lemma {:induction false} CauchySchwarz(a: Vec, b: Vec)
    requires |a| == |b|
    ensures Dot(a, b) * Dot(a, b) <= SumSquares(a) * SumSquares(b)
  {
    if a != [] {
      CauchySchwarz(a[1..], b[1..]);
      SumSquaresNonNegative(a[1..]);
      SumSquaresNonNegative(b[1..]);
      CauchyStep(Dot(a[1..], b[1..]), SumSquares(a[1..]), SumSquares(b[1..]), a[0], b[0]);
    }
  }

  lemma CauchyStep(d: real, a: real, b: real, x: real, y: real)
    requires a >= 0.0 && b >= 0.0 && d * d <= a * b
    ensures (x * y + d) * (x * y + d) <= (x * x + a) * (y * y + b)
  {
    CrossTerm(d, a, b, x, y);
    var xy := x * y;
    assert (xy + d) * (xy + d) == xy * xy + 2.0 * (d * xy) + d * d;
    assert d * xy == d * x * y;
    assert (x * x + a) * (y * y + b) == (x * x) * (y * y) + (x * x) * b + a * (y * y) + a * b;
    assert xy * xy == (x * x) * (y * y);
  }

  /** Every cosine score lies between -1 and 1. */
  lemma ScoreInRange(norm: Norm, q: Vec, e: Vec)
    requires IsNormOf(norm, q) && IsNormOf(norm, e) && norm(q) != 0.0 && |q| == |e|
    ensures -1.0 <= Score(norm, q, e) <= 1.0
  {
    if norm(e) != 0.0 {
      CauchySchwarz(q, e);
      var d, m := Dot(q, e), norm(q) * norm(e);
      Positive(norm(q), norm(e));
      assert m * m == (norm(q) * norm(q)) * (norm(e) * norm(e));
      SquareOrder(d, m);
      QuotientInRange(d, m);
    }
  }

  lemma QuotientInRange(d: real, m: real)
    requires m > 0.0 && -m <= d <= m
    ensures -1.0 <= d / m <= 1.0
  {
    var r := d / m;
    assert r * m == d;
    if r > 1.0 {
      Positive(r - 1.0, m);
    }
    if r < -1.0 {
      Positive(-1.0 - r, m);
    }
  }

  // ---------- The ranking ----------

  /** Row i comes before row j: a higher score, or the same score and an earlier row. */
  predicate Beats(scores: seq<real>, i: nat, j: nat)
    requires i < |scores| && j < |scores|
  {
    scores[i] > scores[j] || (scores[i] == scores[j] && i < j)
  }

  ghost predicate StrictlyRanked(scores: seq<real>, order: seq<nat>)
    requires Indices(order, |scores|)
  {
    forall p, r :: 0 <= p < r < |order| ==> Beats(scores, order[p], order[r])
  }

  lemma {:induction false} InsertMembers(scores: seq<real>, order: seq<nat>, i: nat)
    requires i < |scores| && Indices(order, |scores|)
    ensures forall x :: x in Insert(scores, order, i) <==> x == i || x in order
  {
    if order != [] {
      assert order == [order[0]] + order[1..];
      if !(scores[order[0]] < scores[i]) {
        InsertMembers(scores, order[1..], i);
      }
    }
  }

  lemma {:induction false} InsertKeepsRanked(scores: seq<real>, order: seq<nat>, i: nat)
    requires i < |scores| && Indices(order, |scores|) && StrictlyRanked(scores, order)
    requires forall p :: 0 <= p < |order| ==> order[p] < i
    ensures StrictlyRanked(scores, Insert(scores, order, i))
  {
    var r := Insert(scores, order, i);
    if order != [] {
      if scores[order[0]] < scores[i] {
        forall p | 0 <= p < |order|
          ensures Beats(scores, i, order[p])
        {
          assert p > 0 ==> Beats(scores, order[0], order[p]);
        }
      } else {
        var rest := Insert(scores, order[1..], i);
        InsertKeepsRanked(scores, order[1..], i);
        InsertMembers(scores, order[1..], i);
        forall p | 0 <= p < |rest|
          ensures Beats(scores, order[0], rest[p])
        {
          assert rest[p] in rest;
          if rest[p] == i {
            assert order[0] < i;
          } else {
            var k :| 0 <= k < |order[1..]| && order[1..][k] == rest[p];
            assert Beats(scores, order[0], order[k + 1]);
          }
        }
      }
    }
  }

  /** The ranking lists every row exactly once, each beating all that follow it. */
  lemma {:induction false} RankingIsStableAndDescending(scores: seq<real>, n: nat)
    requires n <= |scores|
    ensures forall x: nat :: x in Ranking(scores, n) <==> x < n
    ensures StrictlyRanked(scores, Ranking(scores, n))
  {
    if n > 0 {
      RankingIsStableAndDescending(scores, n - 1);
      InsertMembers(scores, Ranking(scores, n - 1), n - 1);
      var before := Ranking(scores, n - 1);
      forall p | 0 <= p < |before|
        ensures before[p] < n - 1
      {
        assert before[p] in before;
      }
      InsertKeepsRanked(scores, before, n - 1);
    }
  }

  ghost function Beaters(scores: seq<real>, i: nat): set<nat>
    requires i < |scores|
  {
    set j: nat | j < |scores| && Beats(scores, j, i)
  }

  lemma {:induction false} PrefixSize(order: seq<nat>, p: nat)
    requires p <= |order|
    requires forall a, b :: 0 <= a < b < |order| ==> order[a] != order[b]
    ensures |set k | 0 <= k < p :: order[k]| == p
  {
    if p > 0 {
      PrefixSize(order, p - 1);
      var before := set k | 0 <= k < p - 1 :: order[k];
      assert (set k | 0 <= k < p :: order[k]) == before + {order[p - 1]};
      assert order[p - 1] !in before;
    }
  }

  lemma RankedIsInjective(scores: seq<real>, order: seq<nat>)
    requires Indices(order, |scores|) && StrictlyRanked(scores, order)
    ensures forall a, b :: 0 <= a < b < |order| ==> order[a] != order[b]
  {
    forall a, b | 0 <= a < b < |order|
      ensures order[a] != order[b]
    {
      assert Beats(scores, order[a], order[b]);
    }
  }

  /** The rows before position p are those that beat the row at p. */
  lemma BeatersComeFirst(scores: seq<real>, order: seq<nat>, p: nat)
    requires Indices(order, |scores|) && StrictlyRanked(scores, order) && p < |order|
    requires forall x: nat :: x in order <==> x < |scores|
    ensures Beaters(scores, order[p]) == set k | 0 <= k < p :: order[k]
  {
    forall j: nat | j < |scores|
      ensures Beats(scores, j, order[p]) <==> exists k :: 0 <= k < p && order[k] == j
    {
      assert j in order;
      var k :| 0 <= k < |order| && order[k] == j;
      assert k < p ==> Beats(scores, order[k], order[p]);
      assert p < k ==> Beats(scores, order[p], order[k]);
      BeatsIsStrict(scores, j, order[p]);
    }
    hide StrictlyRanked, Beats;
  }

  lemma BeatsIsStrict(scores: seq<real>, i: nat, j: nat)
    requires i < |scores| && j < |scores|
    ensures !Beats(scores, i, i)
    ensures Beats(scores, i, j) ==> !Beats(scores, j, i)
  {
  }

  /** A row's position is the number of rows that beat it. */
  lemma PositionCountsBeaters(scores: seq<real>, p: nat)
    requires p < |scores|
    ensures |Beaters(scores, Ranking(scores, |scores|)[p])| == p
  {
    hide Ranking, Beats, Beaters, StrictlyRanked;
    var order := Ranking(scores, |scores|);
    RankingIsStableAndDescending(scores, |scores|);
    BeatersComeFirst(scores, order, p);
    RankedIsInjective(scores, order);
    PrefixSize(order, p);
  }

  /** Main result: the search ranks row i among the first k exactly when fewer than k rows
      beat it, so no omitted row beats a returned one, whatever the ties. */
  lemma RankedInTopKIff(scores: seq<real>, k: nat, i: nat)
    requires i < |scores|
    ensures i in Take(Ranking(scores, |scores|), k) <==> |Beaters(scores, i)| < k
    ensures |Take(Ranking(scores, |scores|), k)| == if k < |scores| then k else |scores|
  {
    var order := Ranking(scores, |scores|);
    RankingIsStableAndDescending(scores, |scores|);
    assert i in order;
    var p :| 0 <= p < |order| && order[p] == i;
    PositionCountsBeaters(scores, p);
    var top := Take(order, k);
    if p < k {
      assert top[p] == i;
    }
    if i in top {
      var r :| 0 <= r < |top| && top[r] == i;
      PositionCountsBeaters(scores, r);
    }
  }

  // ---------- The search against the table ----------

  lemma {:induction false} Counting(n: nat) returns (order: seq<nat>)
    ensures |order| == n && forall p :: 0 <= p < n ==> order[p] == p
    ensures forall x: nat :: x in order <==> x < n
  {
    order := seq(n, p => p);
    forall x: nat | x < n
      ensures x in order
    {
      assert order[x] == x;
    }
  }

  lemma ScoresGoBefore(norm: Norm, q: Vec, table: seq<Chunk>, rows: seq<Chunk>, at: seq<nat>, i: nat, j: nat)
    requires HasEmbeddings(rows) && norm(q) != 0.0 && ShapesFit(norm, q, rows) && |at| == |rows|
    requires forall k :: 0 <= k < |at| ==> at[k] < |table| && rows[k] == table[at[k]]
    requires forall k, l :: 0 <= k < l < |at| ==> at[k] < at[l]
    requires i < |rows| && j < |rows| && Beats(Scores(norm, q, rows), i, j)
    ensures GoesBefore(norm, q, table, at[i], at[j])
  {
    hide Score;
  }

  /** The ranking of the candidates, in terms of the table. */
  lemma CandidatesRanked(norm: Norm, q: Vec, table: seq<Chunk>, rows: seq<Chunk>, at: seq<nat>)
    returns (ranking: seq<nat>)
    requires HasEmbeddings(rows) && |at| == |rows| && (norm(q) != 0.0 ==> ShapesFit(norm, q, rows))
    requires forall k :: 0 <= k < |at| ==> at[k] < |table| && rows[k] == table[at[k]]
    requires forall k, l :: 0 <= k < l < |at| ==> at[k] < at[l]
    ensures |ranking| == |rows| && forall p :: 0 <= p < |ranking| ==> ranking[p] < |rows|
    ensures forall x: nat :: x in ranking <==> x < |rows|
    ensures forall p, r :: 0 <= p < r < |ranking| ==> GoesBefore(norm, q, table, at[ranking[p]], at[ranking[r]])
    ensures forall topK: nat :: TopRows(norm, q, rows, topK) == Ok(Pick(rows, Take(ranking, topK)))
  {
    hide Score, Ranking, Scores;
    if norm(q) == 0.0 {
      ranking := Counting(|rows|);
      ZeroQueryKeepsOrder(norm, q, table, at);
      forall topK: nat
        ensures Take(rows, topK) == Pick(rows, Take(ranking, topK))
      {
      }
    } else {
      var scores := Scores(norm, q, rows);
      ranking := Ranking(scores, |rows|);
      RankingIsStableAndDescending(scores, |rows|);
      forall p, r | 0 <= p < r < |ranking|
        ensures GoesBefore(norm, q, table, at[ranking[p]], at[ranking[r]])
      {
        assert Beats(scores, ranking[p], ranking[r]);
        ScoresGoBefore(norm, q, table, rows, at, ranking[p], ranking[r]);
      }
    }
  }

  /** TopRows picks top rows of the table, and fails exactly on a row in scope that does not
      fit the query. */
  lemma TopRowsAreTop(norm: Norm, q: Vec, table: seq<Chunk>, tenant: nat, project: nat, topK: nat)
    ensures var result := TopRows(norm, q, Candidates(table, tenant, project), topK);
            IsSearchResult(norm, q, table, tenant, project, topK, result)
  {
    hide Candidates, IsTop, GoesBefore, Misfit, ShapesFit, Ranking, Scores, Pick;
    var rows := Candidates(table, tenant, project);
    MisfitsAreCandidates(norm, q, table, tenant, project);
    if norm(q) == 0.0 || ShapesFit(norm, q, rows) {
      hide TopRows;
      var at := CandidatePositions(table, tenant, project);
      var ranking := CandidatesRanked(norm, q, table, rows, at);
      var order := RankedRowsAreTop(norm, q, table, tenant, project, topK, at, ranking);
      assert TopRows(norm, q, rows, topK) == Ok(Pick(rows, Take(ranking, topK)));
    }
  }

  lemma CandidatePositions(table: seq<Chunk>, tenant: nat, project: nat) returns (at: seq<nat>)
    ensures var rows := Candidates(table, tenant, project);
            && |at| == |rows|
            && forall j :: 0 <= j < |at| ==>
                 at[j] < |table| && InScope(table[at[j]], tenant, project) && rows[j] == table[at[j]]
    ensures forall j, k :: 0 <= j < k < |at| ==> at[j] < at[k]
    ensures forall i: nat :: i < |table| && InScope(table[i], tenant, project) ==> i in at
  {
    at := Positions(table, c => Eligible(c, tenant, project));
  }

  lemma MisfitsAreCandidates(norm: Norm, q: Vec, table: seq<Chunk>, tenant: nat, project: nat)
    ensures !ShapesFit(norm, q, Candidates(table, tenant, project)) <==>
            exists c :: c in table && Misfit(norm, q, c, tenant, project)
  {
    var rows := Candidates(table, tenant, project);
    if !ShapesFit(norm, q, rows) {
      var i :| 0 <= i < |rows| && norm(rows[i].embedding.value) != 0.0 && |rows[i].embedding.value| != |q|;
      assert Misfit(norm, q, rows[i], tenant, project);
    }
    if c :| c in table && Misfit(norm, q, c, tenant, project) {
      assert c in rows;
      var i :| 0 <= i < |rows| && rows[i] == c;
    }
  }

  lemma ZeroQueryKeepsOrder(norm: Norm, q: Vec, table: seq<Chunk>, at: seq<nat>)
    requires norm(q) == 0.0
    requires forall k :: 0 <= k < |at| ==> at[k] < |table|
    requires forall k, l :: 0 <= k < l < |at| ==> at[k] < at[l]
    ensures forall p, r :: 0 <= p < r < |at| ==> GoesBefore(norm, q, table, at[p], at[r])
  {
  }

  // ---------- Only the direction of the query matters ----------

  function Scale(c: real, v: Vec): (r: Vec)
    ensures |r| == |v|
  {
    if v == [] then [] else [c * v[0]] + Scale(c, v[1..])
  }

  lemma {:induction false} DotOfScaled(c: real, a: Vec, b: Vec)
    requires |a| == |b|
    ensures Dot(Scale(c, a), b) == c * Dot(a, b)
  {
    if a != [] {
      DotOfScaled(c, a[1..], b[1..]);
      assert (c * a[0]) * b[0] == c * (a[0] * b[0]);
    }
  }

  lemma {:induction false} SumSquaresOfScaled(c: real, a: Vec)
    ensures SumSquares(Scale(c, a)) == (c * c) * SumSquares(a)
  {
    if a != [] {
      SumSquaresOfScaled(c, a[1..]);
      assert (c * a[0]) * (c * a[0]) == (c * c) * (a[0] * a[0]);
    }
  }

  lemma NormOfScaled(norm: Norm, c: real, q: Vec)
    requires c > 0.0 && IsNormOf(norm, q) && IsNormOf(norm, Scale(c, q))
    ensures norm(Scale(c, q)) == c * norm(q)
  {
    SumSquaresOfScaled(c, q);
    var x, y := norm(Scale(c, q)), c * norm(q);
    NonNegative(c, norm(q));
    assert y * y == (c * c) * (norm(q) * norm(q));
    SquareOrder(x, y);
    SquareOrder(y, x);
  }

  lemma ScoreOfScaled(norm: Norm, c: real, q: Vec, e: Vec)
    requires c > 0.0 && IsNormOf(norm, q) && IsNormOf(norm, Scale(c, q)) && norm(q) != 0.0
    requires norm(e) != 0.0 ==> |q| == |e|
    ensures norm(Scale(c, q)) != 0.0
    ensures Score(norm, Scale(c, q), e) == Score(norm, q, e)
  {
    hide Quotient;
    NormOfScaled(norm, c, q);
    Positive(c, norm(q));
    if norm(e) != 0.0 {
      DotOfScaled(c, q, e);
      CancelFactor(c, Dot(q, e), norm(q), norm(e), Dot(Scale(c, q), e), norm(Scale(c, q)));
    }
  }

  lemma CancelFactor(c: real, d: real, x: real, y: real, cd: real, cx: real)
    requires c != 0.0 && x != 0.0 && y != 0.0 && cd == c * d && cx == c * x
    ensures cx != 0.0
    ensures Quotient(cd, cx, y) == Quotient(d, x, y)
  {
    var m := x * y;
    assert m != 0.0;
    assert (c * x) * y == c * m;
    assert c * m != 0.0;
    var r := d / m;
    assert r * m == d;
    assert r * (c * m) == c * d;
    QuotientIs(c * d, c * m, r);
  }

  lemma QuotientIs(a: real, b: real, r: real)
    requires b != 0.0 && r * b == a
    ensures a / b == r
  {
  }

  /** Scaling the query by a positive factor leaves the result unchanged. */
  lemma ScalingTheQueryChangesNothing(norm: Norm, c: real, q: Vec, rows: seq<Chunk>, topK: nat)
    requires c > 0.0 && HasEmbeddings(rows) && IsNormOf(norm, q) && IsNormOf(norm, Scale(c, q))
    ensures TopRows(norm, Scale(c, q), rows, topK) == TopRows(norm, q, rows, topK)
  {
    NormOfScaled(norm, c, q);
    if norm(q) != 0.0 {
      Positive(c, norm(q));
      if ShapesFit(norm, q, rows) {
        forall i | 0 <= i < |rows|
          ensures Score(norm, Scale(c, q), rows[i].embedding.value) == Score(norm, q, rows[i].embedding.value)
        {
          ScoreOfScaled(norm, c, q, rows[i].embedding.value);
        }
        assert Scores(norm, Scale(c, q), rows) == Scores(norm, q, rows);
      }
    }
  }

  /** a[0] * b[0] + ... + a[n-1] * b[n-1] */
  function SumOfProducts(a: Vec, b: Vec, n: nat): real
    requires n <= |a| == |b|
  {
    if n == 0 then 0.0 else SumOfProducts(a, b, n - 1) + a[n - 1] * b[n - 1]
  }

  lemma {:induction false} SumOfProductsCons(a: Vec, b: Vec, n: nat)
    requires 0 < n <= |a| == |b|
    ensures SumOfProducts(a, b, n) == a[0] * b[0] + SumOfProducts(a[1..], b[1..], n - 1)
  {
    if n > 1 {
      SumOfProductsCons(a, b, n - 1);
    }
  }

  lemma {:induction false} DotIsSumOfProducts(a: Vec, b: Vec)
    requires |a| == |b|
    ensures Dot(a, b) == SumOfProducts(a, b, |a|)
  {
    if a != [] {
      DotIsSumOfProducts(a[1..], b[1..]);
      SumOfProductsCons(a, b, |a|);
    }
  }

  /** The score is the cosine: times both norms it is the sum of products; and a zero embedding
      scores 0. */
  lemma ScoreIsCosine(norm: Norm, q: Vec, e: Vec)
    requires IsNormOf(norm, q) && IsNormOf(norm, e) && norm(q) != 0.0 && |q| == |e|
    ensures norm(e) == 0.0 ==> Score(norm, q, e) == 0.0
    ensures norm(e) != 0.0 ==> Score(norm, q, e) * (norm(q) * norm(e)) == SumOfProducts(q, e, |q|)
  {
    DotIsSumOfProducts(q, e);
    if norm(e) != 0.0 {
      Positive(norm(q), norm(e));
      QuotientTimes(Dot(q, e), norm(q) * norm(e));
    }
  }

  lemma QuotientTimes(d: real, m: real)
    requires m != 0.0
    ensures (d / m) * m == d
  {
  }

  lemma {:induction false} DotCommutes(a: Vec, b: Vec)
    requires |a| == |b|
    ensures Dot(a, b) == Dot(b, a)
  {
    if a != [] {
      DotCommutes(a[1..], b[1..]);
    }
  }

  /** An embedding that points where the query points scores 1, one that points the other way
      scores -1. */
  lemma ParallelScores(norm: Norm, c: real, q: Vec)
    requires c > 0.0 && norm(q) != 0.0
    requires IsNormOf(norm, q) && IsNormOf(norm, Scale(c, q)) && IsNormOf(norm, Scale(-c, q))
    ensures norm(Scale(c, q)) != 0.0 && norm(Scale(-c, q)) != 0.0
    ensures Score(norm, q, Scale(c, q)) == 1.0
    ensures Score(norm, q, Scale(-c, q)) == -1.0
  {
    var n, cn := norm(q), c * norm(q);
    NormOfScaled(norm, c, q);
    NormOfFlipped(norm, c, q);
    DotOfScaled(c, q, q);
    DotCommutes(Scale(c, q), q);
    DotOfScaled(-c, q, q);
    DotCommutes(Scale(-c, q), q);
    Positive(c, n);
    Positive(n, cn);
    hide Dot;
    var m := c * (n * n);
    assert n * cn == m;
    assert (-c) * (n * n) == -m;
    QuotientIs(m, n * cn, 1.0);
    QuotientIs(-m, n * cn, -1.0);
  }

  lemma NormOfFlipped(norm: Norm, c: real, q: Vec)
    requires c > 0.0 && IsNormOf(norm, q) && IsNormOf(norm, Scale(-c, q))
    ensures norm(Scale(-c, q)) == c * norm(q)
  {
    SumSquaresOfScaled(-c, q);
    var x, y := norm(Scale(-c, q)), c * norm(q);
    NonNegative(c, norm(q));
    assert y * y == (c * c) * (norm(q) * norm(q));
    assert (-c) * (-c) == c * c;
    SquareOrder(x, y);
    SquareOrder(y, x);
  }
}
