// The message history of an agent session: an append-only store, a query ordered by
// creation time, and a window of the most recent messages that fit a character budget.
module ConversationMemory {
  import opened Wrappers
  import opened AgentRuntime

  /** A stored message. The database stamps `createdAt` with the time of the transaction. */
  datatype Stored = Stored(session: nat, tenant: nat, role: Role, content: string, createdAt: int)

  predicate Belongs(m: Stored, session: nat, tenant: nat) {
    m.session == session && m.tenant == tenant
  }

  function Matching(messages: seq<Stored>, session: nat, tenant: nat): seq<Stored> {
    if messages == [] then []
    else
      var last := messages[|messages| - 1];
      Matching(messages[..|messages| - 1], session, tenant) + if Belongs(last, session, tenant) then [last] else []
  }

  ghost predicate ByTime(rows: seq<Stored>) {
    forall i, j :: 0 <= i < j < |rows| ==> rows[i].createdAt <= rows[j].createdAt
  }

  /** Any answer the database may give to SELECT ... WHERE session AND tenant ORDER BY
      created_at ASC: equal stamps may come in either order. */
  ghost predicate IsAnswer(rows: seq<Stored>, messages: seq<Stored>, session: nat, tenant: nat) {
    ByTime(rows) && multiset(rows) == multiset(Matching(messages, session, tenant))
  }

  function Chars(rows: seq<Stored>): nat {
    if rows == [] then 0 else |rows[0].content| + Chars(rows[1..])
  }

  class MessageStore {
    var messages: seq<Stored>

    constructor ()
      ensures messages == []
    {
      messages := [];
    }
  }

  class Memory {
    const store: MessageStore
    const session: nat
    const tenant: nat

    constructor (store: MessageStore, session: nat, tenant: nat)
      ensures this.store == store && this.session == session && this.tenant == tenant
    {
      this.store, this.session, this.tenant := store, session, tenant;
    }

    method AddMessage(role: Role, content: string, now: int)
      modifies store
      ensures store.messages == old(store.messages) + [Stored(session, tenant, role, content, now)]
    {
      store.messages := store.messages + [Stored(session, tenant, role, content, now)];
    }

    /** `rows` is what the database answered. */
    method GetMessages(rows: seq<Stored>, maxChars: Option<int>) returns (kept: seq<Stored>)
      requires IsAnswer(rows, store.messages, session, tenant)
      ensures maxChars.None? ==> kept == rows
      ensures maxChars.Some? ==> IsWindow(kept, rows, maxChars.value)
    {
      hide IsAnswer;
      if maxChars.None? {
        return rows;
      }
      var total: int := 0;
      kept := [];
      var i := |rows|;
      assert rows[i..] == [];
      while i > 0
        invariant 0 <= i <= |rows| && kept == rows[i..] && total == Chars(rows[i..])
        invariant i < |rows| ==> total <= maxChars.value
      {
        assert rows[i - 1..] == [rows[i - 1]] + rows[i..];
        total := total + |rows[i - 1].content|;
        if total > maxChars.value {
          break;
        }
        kept := [rows[i - 1]] + kept;
        i := i - 1;
      }
    }

    method ToLlmMessages(rows: seq<Stored>, maxChars: Option<int>) returns (result: seq<Message>)
      requires IsAnswer(rows, store.messages, session, tenant)
      ensures exists kept ::
                && (if maxChars.None? then kept == rows else IsWindow(kept, rows, maxChars.value))
                && result == LlmView(kept)
      ensures forall m :: m in result ==> !m.role.Tool?
    {
      var kept := GetMessages(rows, maxChars);
      result := [];
      for i := 0 to |kept|
        invariant result == LlmView(kept[..i])
        invariant forall m :: m in result ==> !m.role.Tool?
      {
        assert kept[..i + 1][..i] == kept[..i];
        var role := if kept[i].role.Tool? then User else kept[i].role;
        result := result + [Message(role, kept[i].content)];
      }
      assert kept[..|kept|] == kept;
    }
  }

  /** Tool messages reach the model as user messages. */
  function LlmView(rows: seq<Stored>): (r: seq<Message>)
    ensures |r| == |rows|
    ensures forall i :: 0 <= i < |rows| ==>
              r[i] == Message(if rows[i].role.Tool? then User else rows[i].role, rows[i].content)
  {
    if rows == [] then []
    else
      var last := rows[|rows| - 1];
      LlmView(rows[..|rows| - 1]) + [Message(if last.role.Tool? then User else last.role, last.content)]
  }

  /** A suffix within the budget that cannot take one more message. */
  ghost predicate IsWindow(kept: seq<Stored>, rows: seq<Stored>, budget: int) {
    && |kept| <= |rows| && kept == rows[|rows| - |kept|..]
    && (kept != [] ==> Chars(kept) <= budget)
    && (|kept| < |rows| ==> Chars(rows[|rows| - |kept| - 1..]) > budget)
  }

  lemma {:induction false} LongerSuffixIsLonger(rows: seq<Stored>, i: nat, j: nat)
    requires i <= j <= |rows|
    ensures Chars(rows[i..]) >= Chars(rows[j..])
    decreases j - i
  {
    if i < j {
      LongerSuffixIsLonger(rows, i + 1, j);
      assert rows[i..][1..] == rows[i + 1..];
    }
  }

  /** The contents of the rows, one after another. */
  function Joined(rows: seq<Stored>): string {
    if rows == [] then "" else Joined(rows[..|rows| - 1]) + rows[|rows| - 1].content
  }

  lemma {:induction false} CharsAppend(rows: seq<Stored>, m: Stored)
    ensures Chars(rows + [m]) == Chars(rows) + |m.content|
  {
    if rows != [] {
      CharsAppend(rows[1..], m);
      assert (rows + [m])[1..] == rows[1..] + [m];
    } else {
      assert rows + [m] == [m] && [m][1..] == [];
    }
  }

  lemma {:induction false} CharsIsLength(rows: seq<Stored>)
    ensures Chars(rows) == |Joined(rows)|
  {
    if rows != [] {
      CharsIsLength(rows[..|rows| - 1]);
      CharsAppend(rows[..|rows| - 1], rows[|rows| - 1]);
      assert rows == rows[..|rows| - 1] + [rows[|rows| - 1]];
    }
  }

  /** The window is the longest suffix of the history whose text fits the budget: a suffix fits
      if and only if it is no longer than the window. (With a negative budget nothing fits.) */
  lemma WindowIsTheLongestFittingSuffix(kept: seq<Stored>, rows: seq<Stored>, budget: int, n: nat)
    requires IsWindow(kept, rows, budget) && n <= |rows| && budget >= 0
    ensures |Joined(rows[|rows| - n..])| <= budget <==> n <= |kept|
  {
    CharsIsLength(rows[|rows| - n..]);
    if n <= |kept| {
      LongerSuffixIsLonger(rows, |rows| - |kept|, |rows| - n);
      assert kept == [] ==> rows[|rows| - n..] == [];
    } else {
      LongerSuffixIsLonger(rows, |rows| - n, |rows| - |kept| - 1);
    }
  }

  // ---------- Order and ties ----------

  lemma {:induction false} MatchingMembers(messages: seq<Stored>, session: nat, tenant: nat, m: Stored)
    ensures m in Matching(messages, session, tenant) <==> m in messages && Belongs(m, session, tenant)
  {
    if messages != [] {
      assert messages == messages[..|messages| - 1] + [messages[|messages| - 1]];
      MatchingMembers(messages[..|messages| - 1], session, tenant, m);
    }
  }

  lemma {:induction false} MatchingAppend(a: seq<Stored>, b: seq<Stored>, session: nat, tenant: nat)
    ensures Matching(a + b, session, tenant) == Matching(a, session, tenant) + Matching(b, session, tenant)
  {
    if b == [] {
      assert a + b == a;
    } else {
      MatchingAppend(a, b[..|b| - 1], session, tenant);
      assert (a + b)[..|a + b| - 1] == a + b[..|b| - 1];
    }
  }

  lemma ByTimeFront(rows: seq<Stored>)
    requires ByTime(rows) && rows != []
    ensures ByTime(rows[..|rows| - 1])
    ensures multiset(rows) == multiset(rows[..|rows| - 1]) + multiset{rows[|rows| - 1]}
    ensures forall r :: r in multiset(rows) ==> r.createdAt <= rows[|rows| - 1].createdAt
  {
    var n := |rows| - 1;
    assert rows == rows[..n] + [rows[n]];
    forall r | r in multiset(rows)
      ensures r.createdAt <= rows[n].createdAt
    {
      var i :| 0 <= i < |rows| && rows[i] == r;
    }
  }

  lemma ByTimeAppend(front: seq<Stored>, last: Stored)
    requires ByTime(front) && forall r :: r in multiset(front) ==> r.createdAt <= last.createdAt
    ensures ByTime(front + [last])
  {
    forall i | 0 <= i < |front|
      ensures front[i].createdAt <= last.createdAt
    {
      assert front[i] in multiset(front);
    }
  }

  /** Insertion behind everything that is not newer. */
  function Inserted(rows: seq<Stored>, m: Stored): seq<Stored> {
    if rows == [] || rows[|rows| - 1].createdAt <= m.createdAt then rows + [m]
    else Inserted(rows[..|rows| - 1], m) + [rows[|rows| - 1]]
  }

  lemma {:induction false} InsertedIsSorted(rows: seq<Stored>, m: Stored)
    requires ByTime(rows)
    ensures ByTime(Inserted(rows, m)) && multiset(Inserted(rows, m)) == multiset(rows) + multiset{m}
  {
    hide ByTime;
    if rows == [] {
      ByTimeAppend(rows, m);
    } else {
      var front, last := rows[..|rows| - 1], rows[|rows| - 1];
      ByTimeFront(rows);
      if last.createdAt <= m.createdAt {
        ByTimeAppend(rows, m);
      } else {
        InsertedIsSorted(front, m);
        ByTimeAppend(Inserted(front, m), last);
      }
    }
  }

  /** The database always has an answer to give. */
  lemma {:induction false} AnAnswerExists(messages: seq<Stored>, session: nat, tenant: nat)
    returns (rows: seq<Stored>)
    ensures IsAnswer(rows, messages, session, tenant)
  {
    if messages == [] {
      rows := [];
    } else {
      var last := messages[|messages| - 1];
      rows := AnAnswerExists(messages[..|messages| - 1], session, tenant);
      if Belongs(last, session, tenant) {
        InsertedIsSorted(rows, last);
        rows := Inserted(rows, last);
      }
    }
  }

  /** A message stamped later than all others of its session comes last in every answer. */
  lemma NewestComesLast(rows: seq<Stored>, messages: seq<Stored>, m: Stored)
    requires IsAnswer(rows, messages, m.session, m.tenant) && m in messages
    requires forall o :: o in messages && Belongs(o, m.session, m.tenant) && o != m ==> o.createdAt < m.createdAt
    ensures |rows| > 0 && rows[|rows| - 1] == m
  {
    MatchingMembers(messages, m.session, m.tenant, m);
    assert m in multiset(rows);
    var i :| 0 <= i < |rows| && rows[i] == m;
    var last := rows[|rows| - 1];
    assert last in multiset(rows);
    MatchingMembers(messages, m.session, m.tenant, last);
    assert i < |rows| - 1 ==> rows[i].createdAt <= last.createdAt;
  }

  function Swap(rows: seq<Stored>, i: nat, j: nat): (swapped: seq<Stored>)
    requires i < |rows| && j < |rows|
    ensures multiset(swapped) == multiset(rows)
  {
    rows[i := rows[j]][j := rows[i]]
  }

  /** A tie leaves the order open: of two messages with the same stamp either may come first. */
  lemma TiedMessagesMaySwap(rows: seq<Stored>, messages: seq<Stored>, session: nat, tenant: nat, i: nat, j: nat)
    requires IsAnswer(rows, messages, session, tenant) && i < j < |rows|
    requires rows[i].createdAt == rows[j].createdAt
    ensures IsAnswer(Swap(rows, i, j), messages, session, tenant)
  {
    var swapped := Swap(rows, i, j);
    forall k | 0 <= k < |rows|
      ensures swapped[k].createdAt == rows[k].createdAt
    {
    }
  }

  /** Two messages with the same stamp: some answer puts this one before that one. */
  lemma EitherMayComeFirst(messages: seq<Stored>, first: Stored, second: Stored)
    returns (rows: seq<Stored>, i: nat, j: nat)
    requires first in messages && second in messages && first != second
    requires first.session == second.session && first.tenant == second.tenant
    requires first.createdAt == second.createdAt
    ensures IsAnswer(rows, messages, first.session, first.tenant)
    ensures i < j < |rows| && rows[i] == first && rows[j] == second
  {
    rows := AnAnswerExists(messages, first.session, first.tenant);
    MatchingMembers(messages, first.session, first.tenant, first);
    MatchingMembers(messages, first.session, first.tenant, second);
    assert first in multiset(rows) && second in multiset(rows);
    i :| 0 <= i < |rows| && rows[i] == first;
    j :| 0 <= j < |rows| && rows[j] == second;
    if j < i {
      TiedMessagesMaySwap(rows, messages, first.session, first.tenant, j, i);
      rows := Swap(rows, j, i);
      i, j := j, i;
    }
  }

  /** Every message is strictly newer than those before it, or a copy of them. */
  ghost predicate InDistinctOrder(rows: seq<Stored>) {
    forall i, j :: 0 <= i < j < |rows| ==> rows[i].createdAt < rows[j].createdAt || rows[i] == rows[j]
  }

  lemma LastsAgree(a: seq<Stored>, b: seq<Stored>)
    requires ByTime(a) && ByTime(b) && multiset(a) == multiset(b) && InDistinctOrder(a) && a != []
    ensures b != [] && a[|a| - 1] == b[|b| - 1]
  {
    var n := |a| - 1;
    assert |multiset(b)| == |multiset(a)|;
    assert b[n] in multiset(a) && a[n] in multiset(b);
    var i :| 0 <= i < |a| && a[i] == b[n];
    var j :| 0 <= j < |b| && b[j] == a[n];
    assert j < n ==> b[j].createdAt <= b[n].createdAt;
    assert i < n ==> a[i].createdAt < a[n].createdAt || a[i] == a[n];
  }

  /** Such an order is the only one sorted by time. */
  lemma {:induction false} SortedOrderIsUnique(a: seq<Stored>, b: seq<Stored>)
    requires ByTime(a) && ByTime(b) && multiset(a) == multiset(b) && InDistinctOrder(a)
    ensures a == b
  {
    hide ByTime, InDistinctOrder;
    SameLength(a, b);
    if a != [] {
      FrontsAgree(a, b);
      var n := |a| - 1;
      SortedOrderIsUnique(a[..n], b[..n]);
      assert a == a[..n] + [a[n]] && b == b[..n] + [b[n]];
    }
  }

  lemma SameLength(a: seq<Stored>, b: seq<Stored>)
    requires multiset(a) == multiset(b)
    ensures |a| == |b|
  {
    assert |multiset(a)| == |multiset(b)|;
  }

  lemma FrontsAgree(a: seq<Stored>, b: seq<Stored>)
    requires ByTime(a) && ByTime(b) && multiset(a) == multiset(b) && InDistinctOrder(a) && a != []
    ensures b != [] && a[|a| - 1] == b[|b| - 1]
    ensures ByTime(a[..|a| - 1]) && ByTime(b[..|b| - 1]) && InDistinctOrder(a[..|a| - 1])
    ensures multiset(a[..|a| - 1]) == multiset(b[..|b| - 1])
  {
    hide ByTime, InDistinctOrder;
    LastsAgree(a, b);
    DistinctFront(a);
    ByTimeFront(a);
    ByTimeFront(b);
    assert multiset(a[..|a| - 1]) == multiset(a) - multiset{a[|a| - 1]};
    assert multiset(b[..|b| - 1]) == multiset(b) - multiset{b[|b| - 1]};
  }

  lemma DistinctFront(a: seq<Stored>)
    requires InDistinctOrder(a) && a != []
    ensures InDistinctOrder(a[..|a| - 1])
  {
  }

  /** The history is read back in the order it was stored, whatever the database answers, if
      and only if every message carries a later stamp than the messages before it. */
  lemma HistoryOrderIsDeterminedIff(messages: seq<Stored>, session: nat, tenant: nat)
    ensures (forall r :: IsAnswer(r, messages, session, tenant) ==> r == Matching(messages, session, tenant)) <==>
            InDistinctOrder(Matching(messages, session, tenant))
  {
    hide Matching;
    var m := Matching(messages, session, tenant);
    var rows := AnAnswerExists(messages, session, tenant);
    if InDistinctOrder(m) {
      forall r | IsAnswer(r, messages, session, tenant)
        ensures r == m
      {
        SortedOrderIsUnique(m, r);
      }
    } else if rows == m {
      var i, j :| 0 <= i < j < |m| && !(m[i].createdAt < m[j].createdAt || m[i] == m[j]);
      TiedMessagesMaySwap(rows, messages, session, tenant, i, j);
      assert Swap(rows, i, j)[i] != m[i];
    }
  }

  /** Being last in whatever the database answers is exactly being strictly the newest. */
  lemma AlwaysLastIffStrictlyNewest(messages: seq<Stored>, m: Stored)
    requires m in messages
    ensures (forall r :: IsAnswer(r, messages, m.session, m.tenant) ==> |r| > 0 && r[|r| - 1] == m) <==>
            (forall o :: o in messages && Belongs(o, m.session, m.tenant) && o != m ==> o.createdAt < m.createdAt)
  {
    if forall o :: o in messages && Belongs(o, m.session, m.tenant) && o != m ==> o.createdAt < m.createdAt {
      forall r | IsAnswer(r, messages, m.session, m.tenant)
        ensures |r| > 0 && r[|r| - 1] == m
      {
        NewestComesLast(r, messages, m);
      }
    } else {
      var o :| o in messages && Belongs(o, m.session, m.tenant) && o != m && o.createdAt >= m.createdAt;
      OtherMayComeLast(messages, m, o);
    }
  }

  lemma OtherMayComeLast(messages: seq<Stored>, m: Stored, o: Stored)
    requires m in messages && o in messages
    requires Belongs(o, m.session, m.tenant) && o != m && o.createdAt >= m.createdAt
    ensures exists r :: IsAnswer(r, messages, m.session, m.tenant) && |r| > 0 && r[|r| - 1] != m
  {
    hide ByTime, Matching;
    var rows := AnAnswerExists(messages, m.session, m.tenant);
    MatchingMembers(messages, m.session, m.tenant, o);
    assert o in multiset(rows);
    var j :| 0 <= j < |rows| && rows[j] == o;
    var n := |rows| - 1;
    if rows[n] == m {
      ByTimeFront(rows);
      TiedMessagesMaySwap(rows, messages, m.session, m.tenant, j, n);
      assert Swap(rows, j, n)[n] == o;
    }
  }

  // ---------- Newer parts ----------

  ghost predicate AllNewer(newer: multiset<Stored>, older: multiset<Stored>) {
    forall o, m :: o in older && m in newer ==> o.createdAt < m.createdAt
  }

  lemma LastIsNewer(rows: seq<Stored>, older: multiset<Stored>, newer: multiset<Stored>)
    requires ByTime(rows) && multiset(rows) == older + newer && AllNewer(newer, older) && newer != multiset{}
    ensures rows != [] && rows[|rows| - 1] in newer
    ensures ByTime(rows[..|rows| - 1])
    ensures multiset(rows[..|rows| - 1]) == older + (newer - multiset{rows[|rows| - 1]})
  {
    var m :| m in newer;
    assert m in multiset(rows);
    ByTimeFront(rows);
    var last := rows[|rows| - 1];
    assert last in multiset(rows);
    assert multiset(rows[..|rows| - 1]) == multiset(rows) - multiset{last};
  }

  lemma FewerNewer(newer: multiset<Stored>, older: multiset<Stored>, x: Stored)
    requires x in newer && AllNewer(newer, older)
    ensures var rest := newer - multiset{x};
            AllNewer(rest, older) && |rest| == |newer| - 1 && newer == rest + multiset{x}
  {
  }

  lemma LengthIsSum(rows: seq<Stored>, older: multiset<Stored>, newer: multiset<Stored>)
    requires multiset(rows) == older + newer
    ensures |rows| == |older| + |newer|
  {
    assert |multiset(rows)| == |rows|;
  }

  /** If one part of the messages is newer than the rest, every order by time puts the rest
      first and that part last. */
  lemma {:induction false} NewerPartComesLast(rows: seq<Stored>, older: multiset<Stored>, newer: multiset<Stored>)
    requires ByTime(rows) && multiset(rows) == older + newer && AllNewer(newer, older)
    ensures |rows| == |older| + |newer|
    ensures ByTime(rows[..|older|]) && multiset(rows[..|older|]) == older && multiset(rows[|older|..]) == newer
    decreases |newer|
  {
    hide ByTime, AllNewer;
    LengthIsSum(rows, older, newer);
    if newer == multiset{} {
      assert rows[..|older|] == rows && rows[|older|..] == [];
    } else {
      LastIsNewer(rows, older, newer);
      var n := |rows| - 1;
      var front, last, rest := rows[..n], rows[n], newer - multiset{rows[n]};
      FewerNewer(newer, older, last);
      NewerPartComesLast(front, older, rest);
      assert rows[..|older|] == front[..|older|];
      assert rows[|older|..] == front[|older|..] + [last];
    }
  }

  /** Messages of one later stamp may follow in any order. */
  lemma LaterStampMayFollow(rows: seq<Stored>, cut: nat, stamp: int)
    requires cut <= |rows| && ByTime(rows[..cut])
    requires forall m :: m in multiset(rows[..cut]) ==> m.createdAt <= stamp
    requires forall m :: m in multiset(rows[cut..]) ==> m.createdAt == stamp
    ensures ByTime(rows) && multiset(rows) == multiset(rows[..cut]) + multiset(rows[cut..])
  {
    assert rows == rows[..cut] + rows[cut..];
    forall i | 0 <= i < |rows|
      ensures if i < cut then rows[i] == rows[..cut][i] && rows[i].createdAt <= stamp else rows[i].createdAt == stamp
    {
      if i < cut {
        assert rows[..cut][i] in multiset(rows[..cut]);
      } else {
        assert rows[cut..][i - cut] in multiset(rows[cut..]);
      }
    }
  }
}
