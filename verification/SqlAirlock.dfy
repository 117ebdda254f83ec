// The SQL Airlock rewriter: a transformation of SELECT trees that removes every
// caller-supplied user_id conjunct, injects the session's own and caps LIMIT.
// WHERE is given the three-valued meaning of SQL-92, section 8.12.
module SqlAirlock {
  import opened Wrappers
  import opened Sequences

  // ---------- Trees ----------

  /** A WHERE expression. `Other` stands for every node kind the rewriter does not
      look at (comparisons, functions, IN, BETWEEN, subqueries, ...). */
  datatype Expr =
    | Column(table: string, name: string)
    | Placeholder(name: string)
    | Literal(text: string)
    | Eq(left: Expr, right: Expr)
    | And(left: Expr, right: Expr)
    | Or(left: Expr, right: Expr)
    | Not(arg: Expr)
    | Paren(arg: Expr)
    | Other(kind: string, args: seq<Expr>)

  /** The `where` slot of a SELECT; `OtherWhere` is a node that is not a Where. */
  datatype WhereSlot = NoWhere | Where(cond: Expr) | OtherWhere

  /** A LIMIT operand: one whose text Python's int() accepts, or any other. */
  datatype LimitCount = IntText(value: int) | NotAnInt

  datatype LimitSlot = NoLimit | Limit(count: LimitCount) | OtherLimit

  /** `rest` is everything the rewriter leaves alone: projections, FROM, ORDER BY. */
  datatype Select = Select(where: WhereSlot, limit: LimitSlot, offset: nat, rest: string)

  datatype Violation = UserIdInUnsupportedContext

  const MAX_LIMIT: int := 100

  // ---------- The rewriter ----------

  function LowerChar(c: char): char {
    if 'A' <= c <= 'Z' then c - 'A' + 'a' else c
  }

  function Lower(s: string): (r: string)
    ensures |r| == |s|
  {
    if s == "" then "" else [LowerChar(s[0])] + Lower(s[1..])
  }

  predicate IsUserIdColumn(e: Expr) {
    e.Column? && Lower(e.name) == "user_id"
  }

  predicate IsUserIdEq(e: Expr) {
    e.Eq? && (IsUserIdColumn(e.left) || IsUserIdColumn(e.right))
  }

  /** Some user_id column occurs in `e`, at any depth. */
  predicate MentionsUserId(e: Expr) {
    IsUserIdColumn(e) ||
    match e
    case Eq(l, r) => MentionsUserId(l) || MentionsUserId(r)
    case And(l, r) => MentionsUserId(l) || MentionsUserId(r)
    case Or(l, r) => MentionsUserId(l) || MentionsUserId(r)
    case Not(a) => MentionsUserId(a)
    case Paren(a) => MentionsUserId(a)
    case Other(_, args) => exists i | 0 <= i < |args| :: MentionsUserId(args[i])
    case _ => false
  }

  function TenantPredicate(): Expr {
    Eq(Column("", "user_id"), Placeholder("session_user_id"))
  }

  function StripUserId(e: Expr): Result<Option<Expr>, Violation> {
    if IsUserIdEq(e) then Ok(None)
    else if e.And? then
      var left :- StripUserId(e.left);
      var right :- StripUserId(e.right);
      if left.None? then Ok(right)
      else if right.None? then Ok(left)
      else Ok(Some(And(left.value, right.value)))
    else if MentionsUserId(e) then Err(UserIdInUnsupportedContext)
    else Ok(Some(e))
  }

  function InjectedWhere(where: WhereSlot): Result<WhereSlot, Violation> {
    if !where.Where? then Ok(Where(TenantPredicate()))
    else
      var cleaned :- StripUserId(where.cond);
      if cleaned.None? then Ok(Where(TenantPredicate()))
      else Ok(Where(And(cleaned.value, TenantPredicate())))
  }

  function EnforcedLimit(limit: LimitSlot): LimitSlot {
    if limit.Limit? && limit.count.IntText? && limit.count.value <= MAX_LIMIT then limit
    else Limit(IntText(MAX_LIMIT))
  }

  function Rewrite(q: Select): Result<Select, Violation> {
    var where :- InjectedWhere(q.where);
    Ok(q.(where := where, limit := EnforcedLimit(q.limit)))
  }

  // ---------- The rewriter as the source runs it: copy the node, set its slots ----------

  class SelectNode {
    var where: WhereSlot
    var limit: LimitSlot
    const offset: nat
    const rest: string

    constructor (q: Select)
      ensures View() == q
    {
      where, limit, offset, rest := q.where, q.limit, q.offset, q.rest;
    }

    ghost function View(): Select
      reads this
    {
      Select(where, limit, offset, rest)
    }

    method Copy() returns (result: SelectNode)
      ensures fresh(result) && result.View() == View()
    {
      result := new SelectNode(Select(where, limit, offset, rest));
    }

    method InjectTenantFilter() returns (result: Result<SelectNode, Violation>)
      ensures result.Ok? <==> InjectedWhere(where).Ok?
      ensures result.Ok? ==> fresh(result.value) &&
                             result.value.View() == View().(where := InjectedWhere(where).value)
    {
      var tenantPredicate := TenantPredicate();
      var copy := Copy();
      if !copy.where.Where? {
        copy.where := Where(tenantPredicate);
        return Ok(copy);
      }
      var cleaned := StripUserId(copy.where.cond);
      if cleaned.Err? {
        return Err(cleaned.error);
      }
      if cleaned.value.None? {
        copy.where := Where(tenantPredicate);
      } else {
        copy.where := Where(And(cleaned.value.value, tenantPredicate));
      }
      return Ok(copy);
    }

    method EnforceLimit() returns (result: SelectNode)
      ensures fresh(result) && result.View() == View().(limit := EnforcedLimit(limit))
    {
      result := Copy();
      if !result.limit.Limit? {
        result.limit := Limit(IntText(MAX_LIMIT));
        return;
      }
      var current := if result.limit.count.IntText? then result.limit.count.value else MAX_LIMIT + 1;
      if current > MAX_LIMIT {
        result.limit := Limit(IntText(MAX_LIMIT));
      }
    }

    /** No `modifies` clause: the tree handed in is never changed. */
    method RewriteNode() returns (result: Result<SelectNode, Violation>)
      ensures result.Ok? <==> Rewrite(View()).Ok?
      ensures result.Ok? ==> fresh(result.value) && result.value.View() == Rewrite(View()).value
    {
      var injected := InjectTenantFilter();
      if injected.Err? {
        return injected;
      }
      var limited := injected.value.EnforceLimit();
      return Ok(limited);
    }
  }

  // ---------- Meaning ----------

  datatype Truth = True | False | Unknown

  datatype Value = Null | Val(text: string)

  datatype Row = Row(userId: Value, fields: map<string, Value>)

  /** The database's reading of everything the rewriter treats as opaque. */
  datatype Database = Database(scalar: (Expr, Row) -> Value, predicate_: (Expr, Row) -> Truth, session: string)

  function Scalar(db: Database, e: Expr, row: Row): Value {
    if IsUserIdColumn(e) then row.userId
    else if e == Placeholder("session_user_id") then Val(db.session)
    else db.scalar(e, row)
  }

  function EqTruth(a: Value, b: Value): (t: Truth)
    ensures t.Unknown? <==> a == Null || b == Null
    ensures t.True? <==> a == b && a != Null
  {
    if a.Null? || b.Null? then Unknown else if a == b then True else False
  }

  // The truth tables of SQL-92, section 8.12.

  function AndTruth(a: Truth, b: Truth): (t: Truth)
    ensures t.True? <==> a.True? && b.True?
    ensures t.False? <==> a.False? || b.False?
  {
    if a.False? || b.False? then False else if a.True? && b.True? then True else Unknown
  }

  function OrTruth(a: Truth, b: Truth): (t: Truth)
    ensures t.True? <==> a.True? || b.True?
    ensures t.False? <==> a.False? && b.False?
  {
    if a.True? || b.True? then True else if a.False? && b.False? then False else Unknown
  }

  function NotTruth(a: Truth): (t: Truth)
    ensures t.True? <==> a.False?
    ensures t.False? <==> a.True?
  {
    match a case True => False case False => True case Unknown => Unknown
  }

  function Eval(db: Database, e: Expr, row: Row): Truth {
    match e
    case Eq(l, r) => EqTruth(Scalar(db, l, row), Scalar(db, r, row))
    case And(l, r) => AndTruth(Eval(db, l, row), Eval(db, r, row))
    case Or(l, r) => OrTruth(Eval(db, l, row), Eval(db, r, row))
    case Not(a) => NotTruth(Eval(db, a, row))
    case Paren(a) => Eval(db, a, row)
    case _ => db.predicate_(e, row)
  }

  /** SQL keeps a row only when its search condition is true: not false, not unknown. */
  predicate Keeps(db: Database, where: WhereSlot, row: Row) {
    where.Where? ==> Eval(db, where.cond, row) == True
  }

  datatype QueryError = NegativeLimit | UnreadableClause

  /** Runs a query over the candidate rows, which FROM and ORDER BY have already arranged. */
  function Run(db: Database, q: Select, rows: seq<Row>): Result<seq<Row>, QueryError> {
    if q.where.OtherWhere? then Err(UnreadableClause)
    else
      var page := Drop(Filter(rows, r => Keeps(db, q.where, r)), q.offset);
      match q.limit
      case NoLimit => Ok(page)
      case Limit(IntText(n)) => if n < 0 then Err(NegativeLimit) else Ok(Take(page, n))
      case _ => Err(UnreadableClause)
  }

  // ---------- Reference notions: names, paths and the conjunct list ----------

  /** A column called user_id, each letter in either case. */
  predicate NamesUserId(e: Expr) {
    e.Column? && |e.name| == 7 && forall i :: 0 <= i < 7 ==> e.name[i] == "user_id"[i] || e.name[i] == "USER_ID"[i]
  }

  /** An equality with a user_id column on either side. */
  predicate ComparesUserId(e: Expr) {
    e.Eq? && (NamesUserId(e.left) || NamesUserId(e.right))
  }

  function Children(e: Expr): (cs: seq<Expr>)
    ensures forall i :: 0 <= i < |cs| ==> cs[i] < e
  {
    match e
    case Eq(l, r) => [l, r]
    case And(l, r) => [l, r]
    case Or(l, r) => [l, r]
    case Not(a) => [a]
    case Paren(a) => [a]
    case Other(_, args) => args
    case _ => []
  }

  /** The expression reached by following child indices. */
  function At(e: Expr, path: seq<nat>): Option<Expr> {
    if path == [] then Some(e)
    else if path[0] < |Children(e)| then At(Children(e)[path[0]], path[1..])
    else None
  }

  ghost predicate ReachesUserId(e: Expr, path: seq<nat>) {
    At(e, path).Some? && NamesUserId(At(e, path).value)
  }

  /** The first node on the path, from the root down, that is not an AND. */
  function FirstNonAnd(e: Expr, path: seq<nat>): Option<Expr> {
    if !e.And? then Some(e)
    else if path != [] && path[0] < 2 then FirstNonAnd(Children(e)[path[0]], path[1..])
    else None
  }

  /** The path reaches a user_id column through a conjunct that is not a user_id equality. */
  ghost predicate Hides(e: Expr, path: seq<nat>) {
    ReachesUserId(e, path) && FirstNonAnd(e, path).Some? && !ComparesUserId(FirstNonAnd(e, path).value)
  }

  function Conjuncts(e: Expr): (cs: seq<Expr>)
    ensures |cs| > 0
  {
    if e.And? then Conjuncts(e.left) + Conjuncts(e.right) else [e]
  }

  predicate OtherConjunct(e: Expr) {
    !ComparesUserId(e)
  }

  /** The conjuncts of the caller's WHERE that are not user_id equalities, in order. */
  function KeptConjuncts(where: WhereSlot): seq<Expr> {
    if where.Where? then Filter(Conjuncts(where.cond), OtherConjunct) else []
  }

  ghost predicate AllTrue(db: Database, cs: seq<Expr>, row: Row) {
    forall i :: 0 <= i < |cs| ==> Eval(db, cs[i], row) == True
  }

  predicate Owned(db: Database, row: Row) {
    row.userId == Val(db.session)
  }

  /** The row cap the caller can count on: the smaller of the requested limit and 100. */
  function Cap(limit: LimitSlot): int {
    if limit.Limit? && limit.count.IntText? && limit.count.value < 100 then limit.count.value else 100
  }

  // ---------- Helper lemmas ----------

  lemma {:induction false} TrueIffConjunctsTrue(db: Database, e: Expr, row: Row)
    ensures Eval(db, e, row) == True <==> AllTrue(db, Conjuncts(e), row)
  {
    if e.And? {
      TrueIffConjunctsTrue(db, e.left, row);
      TrueIffConjunctsTrue(db, e.right, row);
      var l, r := Conjuncts(e.left), Conjuncts(e.right);
      assert AllTrue(db, l + r, row) <==> AllTrue(db, l, row) && AllTrue(db, r, row) by {
        assert forall i :: 0 <= i < |l| ==> (l + r)[i] == l[i];
        assert forall i :: 0 <= i < |r| ==> (l + r)[|l| + i] == r[i];
      }
    } else {
      assert Conjuncts(e)[0] == e;
    }
  }

  lemma TenantPredicateTrueIffOwned(db: Database, row: Row)
    ensures Eval(db, TenantPredicate(), row) == True <==> Owned(db, row)
  {
    var column := Column("", "user_id");
    assert Lower("user_id") == "user_id" by {
      LowerUserId();
    }
    assert Scalar(db, column, row) == row.userId;
  }

  lemma LowerUserId()
    ensures Lower("user_id") == "user_id"
  {
    assert Lower("d") == "d";
    assert Lower("id") == "id" by { assert "id"[1..] == "d"; }
    assert Lower("_id") == "_id" by { assert "_id"[1..] == "id"; }
    assert Lower("r_id") == "r_id" by { assert "r_id"[1..] == "_id"; }
    assert Lower("er_id") == "er_id" by { assert "er_id"[1..] == "r_id"; }
    assert Lower("ser_id") == "ser_id" by { assert "ser_id"[1..] == "er_id"; }
    assert "user_id"[1..] == "ser_id";
  }

  // ---------- Names and paths ----------

  lemma {:induction false} LowerAt(s: string, i: nat)
    requires i < |s|
    ensures Lower(s)[i] == LowerChar(s[i])
  {
    if i > 0 {
      LowerAt(s[1..], i - 1);
    }
  }

  /** The name test of the rewriter is the reference one. */
  lemma UserIdColumnIff(e: Expr)
    ensures IsUserIdColumn(e) <==> NamesUserId(e)
  {
    if e.Column? {
      var s := e.name;
      forall i | 0 <= i < |s|
        ensures Lower(s)[i] == LowerChar(s[i])
      {
        LowerAt(s, i);
      }
      hide Lower;
      if NamesUserId(e) {
        assert forall i :: 0 <= i < 7 ==> Lower(s)[i] == "user_id"[i];
        assert Lower(s) == "user_id";
      }
    }
  }

  lemma UserIdEqIff(e: Expr)
    ensures IsUserIdEq(e) <==> ComparesUserId(e)
  {
    if e.Eq? {
      UserIdColumnIff(e.left);
      UserIdColumnIff(e.right);
    }
  }

  lemma {:induction false} PathGivesMention(e: Expr, path: seq<nat>)
    requires ReachesUserId(e, path)
    ensures MentionsUserId(e)
  {
    UserIdColumnIff(e);
    if path != [] {
      PathGivesMention(Children(e)[path[0]], path[1..]);
    }
  }

  lemma StepDown(e: Expr, k: nat, path: seq<nat>)
    requires k < |Children(e)| && ReachesUserId(Children(e)[k], path)
    ensures ReachesUserId(e, [k] + path)
  {
    assert ([k] + path)[1..] == path;
  }

  lemma {:induction false} MentionGivesPath(e: Expr) returns (path: seq<nat>)
    requires MentionsUserId(e)
    ensures ReachesUserId(e, path)
  {
    UserIdColumnIff(e);
    path := [];
    if !IsUserIdColumn(e) {
      var k: nat :| k < |Children(e)| && MentionsUserId(Children(e)[k]) by {
        MentionIsBelow(e);
      }
      var below := MentionGivesPath(Children(e)[k]);
      path := [k] + below;
      StepDown(e, k, below);
    }
  }

  lemma MentionIsBelow(e: Expr)
    requires MentionsUserId(e) && !IsUserIdColumn(e)
    ensures exists k: nat :: k < |Children(e)| && MentionsUserId(Children(e)[k])
  {
    match e
    case Eq(l, r) => assert Children(e)[0] == l && Children(e)[1] == r;
    case And(l, r) => assert Children(e)[0] == l && Children(e)[1] == r;
    case Or(l, r) => assert Children(e)[0] == l && Children(e)[1] == r;
    case Not(a) => assert Children(e)[0] == a;
    case Paren(a) => assert Children(e)[0] == a;
    case Other(_, args) => assert Children(e) == args;
    case _ =>
  }

  /** The search for a hidden user_id finds one exactly when some path leads to a column of
      that name. */
  lemma MentionsUserIdIff(e: Expr)
    ensures MentionsUserId(e) <==> exists path :: ReachesUserId(e, path)
  {
    if MentionsUserId(e) {
      var path := MentionGivesPath(e);
    }
    if path :| ReachesUserId(e, path) {
      PathGivesMention(e, path);
    }
  }

  // ---------- Stripping ----------

  lemma HidesBelowAnd(l: Expr, r: Expr, path: seq<nat>)
    ensures Hides(l, path) ==> Hides(And(l, r), [0] + path)
    ensures Hides(r, path) ==> Hides(And(l, r), [1] + path)
    ensures path != [] && Hides(And(l, r), path) ==> path[0] < 2 && Hides([l, r][path[0]], path[1..])
  {
    assert ([0] + path)[1..] == path && ([1] + path)[1..] == path;
  }

  /** Stripping refuses a condition if and only if some path reaches a user_id column through a
      conjunct other than a user_id equality. */
  lemma {:induction false} StripRefusesIff(e: Expr)
    ensures StripUserId(e).Err? <==> exists path :: Hides(e, path)
  {
    hide MentionsUserId, IsUserIdEq, NamesUserId;
    UserIdEqIff(e);
    if e.And? && !IsUserIdEq(e) {
      StripRefusesIff(e.left);
      StripRefusesIff(e.right);
      if path :| Hides(e.left, path) {
        HidesBelowAnd(e.left, e.right, path);
      }
      if path :| Hides(e.right, path) {
        HidesBelowAnd(e.left, e.right, path);
      }
      if path :| Hides(e, path) {
        HidesBelowAnd(e.left, e.right, path);
        assert path != [];
        assert Hides(if path[0] == 0 then e.left else e.right, path[1..]);
      }
    } else {
      MentionsUserIdIff(e);
      assert forall path :: Hides(e, path) <==> ReachesUserId(e, path) && !ComparesUserId(e);
    }
  }

  /** What stripping leaves are precisely the remaining conjuncts, in order. */
  lemma {:induction false} StripKeepsTheOtherConjuncts(e: Expr)
    requires StripUserId(e).Ok?
    ensures StripUserId(e).value.None? <==> KeptConjuncts(Where(e)) == []
    ensures StripUserId(e).value.Some? ==> Conjuncts(StripUserId(e).value.value) == KeptConjuncts(Where(e))
  {
    hide MentionsUserId, NamesUserId;
    UserIdEqIff(e);
    if IsUserIdEq(e) {
      assert Conjuncts(e) == [e] && Filter([e], OtherConjunct) == Filter([e][1..], OtherConjunct) == [];
    } else if e.And? {
      StripKeepsTheOtherConjuncts(e.left);
      StripKeepsTheOtherConjuncts(e.right);
      FilterAppend(Conjuncts(e.left), Conjuncts(e.right), OtherConjunct);
      assert KeptConjuncts(Where(e)) == KeptConjuncts(Where(e.left)) + KeptConjuncts(Where(e.right));
    } else {
      assert Conjuncts(e) == [e] && Conjuncts(e)[0] == e;
      assert Filter([e], OtherConjunct) == [e] + Filter([e][1..], OtherConjunct) == [e];
    }
  }

  lemma {:induction false} StripLeavesNoMention(e: Expr)
    requires StripUserId(e).Ok? && StripUserId(e).value.Some?
    ensures !MentionsUserId(StripUserId(e).value.value)
    ensures StripUserId(StripUserId(e).value.value) == StripUserId(e)
  {
    if e.And? {
      var l, r := StripUserId(e.left).value, StripUserId(e.right).value;
      if l.Some? {
        StripLeavesNoMention(e.left);
      }
      if r.Some? {
        StripLeavesNoMention(e.right);
      }
    }
  }

  /** From what stripping returns no path leads to a user_id column, and it strips to itself. */
  lemma StripIsCleanAndFixed(e: Expr)
    requires StripUserId(e).Ok? && StripUserId(e).value.Some?
    ensures forall path :: !ReachesUserId(StripUserId(e).value.value, path)
    ensures StripUserId(StripUserId(e).value.value) == StripUserId(e)
  {
    StripLeavesNoMention(e);
    MentionsUserIdIff(StripUserId(e).value.value);
  }

  // ---------- Main results ----------

  /** Rewriting refuses a query exactly when its WHERE hides a user_id column. */
  lemma RewriteRefusesIff(q: Select)
    ensures Rewrite(q).Err? <==> q.where.Where? && exists path :: Hides(q.where.cond, path)
  {
    if q.where.Where? {
      StripRefusesIff(q.where.cond);
    }
  }

  /** The rewritten query is the caller's with the user_id equalities gone from its conjuncts,
      the session's own one behind them, and a LIMIT; nothing else is touched. */
  lemma RewrittenConjuncts(q: Select)
    requires Rewrite(q).Ok?
    ensures var rewritten := Rewrite(q).value;
            && rewritten.where.Where?
            && Conjuncts(rewritten.where.cond) ==
               KeptConjuncts(q.where) + [Eq(Column("", "user_id"), Placeholder("session_user_id"))]
            && rewritten.offset == q.offset && rewritten.rest == q.rest
            && rewritten.limit.Limit? && rewritten.limit.count == IntText(Cap(q.limit))
  {
    hide StripUserId;
    if q.where.Where? {
      StripKeepsTheOtherConjuncts(q.where.cond);
    }
  }

  /** A row passes the rewritten WHERE exactly when it is the session user's own and makes
      every conjunct true that is not a user_id equality. */
  lemma RewrittenWhereKeepsExactly(db: Database, q: Select, row: Row)
    requires Rewrite(q).Ok?
    ensures Rewrite(q).value.where.Where?
    ensures Keeps(db, Rewrite(q).value.where, row) <==>
            Owned(db, row) && AllTrue(db, KeptConjuncts(q.where), row)
  {
    hide StripUserId, Conjuncts, TenantPredicate, Owned;
    TenantPredicateTrueIffOwned(db, row);
    if q.where.Where? {
      StripKeepsTheOtherConjuncts(q.where.cond);
      var cleaned := StripUserId(q.where.cond).value;
      if cleaned.Some? {
        TrueIffConjunctsTrue(db, cleaned.value, row);
      }
    }
  }

  /** The whole query: the first min(limit, 100) of exactly the session user's own rows that
      satisfy all the other conjuncts, in the database's order. A negative literal limit is
      passed through and the database rejects it. */
  lemma RewrittenQueryReturnsOwnMatchingRows(db: Database, q: Select, rows: seq<Row>, wanted: Row -> bool)
    requires Rewrite(q).Ok?
    requires forall r :: wanted(r) <==> Owned(db, r) && AllTrue(db, KeptConjuncts(q.where), r)
    ensures Run(db, Rewrite(q).value, rows) ==
            if Cap(q.limit) < 0 then Err(NegativeLimit)
            else Ok(Take(Drop(Filter(rows, wanted), q.offset), Cap(q.limit)))
  {
    var rewritten := Rewrite(q).value;
    forall r | r in rows
      ensures Keeps(db, rewritten.where, r) == wanted(r)
    {
      RewrittenWhereKeepsExactly(db, q, r);
    }
    FilterSamePredicate(rows, r => Keeps(db, rewritten.where, r), wanted);
  }

  lemma RunReturnsKeptRows(db: Database, q: Select, rows: seq<Row>)
    requires Run(db, q, rows).Ok?
    ensures forall r :: r in Run(db, q, rows).value ==> r in rows && Keeps(db, q.where, r)
    ensures q.limit.Limit? && q.limit.count.IntText? ==> |Run(db, q, rows).value| <= q.limit.count.value
  {
    hide Keeps, Sequences.Filter;
    var keeps := (r: Row) => Keeps(db, q.where, r);
    FilterMembers(rows, keeps);
    var page := Drop(Filter(rows, keeps), q.offset);
    assert forall r :: r in page ==> r in Filter(rows, keeps);
  }

  /** Safety: at most 100 rows come back and every one belongs to the session user. */
  lemma NoForeignRowIsReturned(db: Database, q: Select, rows: seq<Row>)
    requires Rewrite(q).Ok? && Run(db, Rewrite(q).value, rows).Ok?
    ensures |Run(db, Rewrite(q).value, rows).value| <= 100
    ensures forall r :: r in Run(db, Rewrite(q).value, rows).value ==> r in rows && Owned(db, r)
  {
    hide Rewrite, Run, Keeps, Owned;
    RewrittenConjuncts(q);
    RunReturnsKeptRows(db, Rewrite(q).value, rows);
    forall r | r in Run(db, Rewrite(q).value, rows).value
      ensures Owned(db, r)
    {
      RewrittenWhereKeepsExactly(db, q, r);
    }
  }

  /** How far the rewrite departs from the caller's own WHERE: on the session user's rows it
      is looser by exactly the user_id conjuncts it removed, so no own match is dropped. */
  lemma RewriteLoosensByTheRemovedConjuncts(db: Database, q: Select, row: Row)
    requires Rewrite(q).Ok? && q.where.Where? && Owned(db, row)
    ensures Keeps(db, q.where, row) <==>
            Keeps(db, Rewrite(q).value.where, row) &&
            AllTrue(db, Filter(Conjuncts(q.where.cond), ComparesUserId), row)
  {
    RewrittenWhereKeepsExactly(db, q, row);
    TrueIffConjunctsTrue(db, q.where.cond, row);
    var cs := Conjuncts(q.where.cond);
    FilterMembers(cs, ComparesUserId);
    FilterMembers(cs, OtherConjunct);
    assert forall c :: c in cs ==> c in Filter(cs, ComparesUserId) || c in Filter(cs, OtherConjunct);
    AllTrueByMembership(db, cs, row);
    AllTrueByMembership(db, Filter(cs, ComparesUserId), row);
    AllTrueByMembership(db, Filter(cs, OtherConjunct), row);
  }

  lemma AllTrueByMembership(db: Database, cs: seq<Expr>, row: Row)
    ensures AllTrue(db, cs, row) <==> forall c :: c in cs ==> Eval(db, c, row) == True
  {
    if forall c :: c in cs ==> Eval(db, c, row) == True {
      forall i | 0 <= i < |cs|
        ensures Eval(db, cs[i], row) == True
      {
        assert cs[i] in cs;
      }
    }
  }

  /** Rewriting twice is rewriting once. */
  lemma RewriteIsIdempotent(q: Select)
    requires Rewrite(q).Ok?
    ensures Rewrite(Rewrite(q).value) == Rewrite(q)
  {
    LowerUserId();
    var p := TenantPredicate();
    assert StripUserId(p) == Ok(None);
    if q.where.Where? && StripUserId(q.where.cond).value.Some? {
      StripLeavesNoMention(q.where.cond);
      var cleaned := StripUserId(q.where.cond).value.value;
      assert StripUserId(And(cleaned, p)) == Ok(Some(cleaned));
    }
  }
}
