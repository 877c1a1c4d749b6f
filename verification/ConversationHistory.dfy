/** Compression of the conversation history and its grouping into exchanges
    (zhongshu-orb/src/app.rs:639-683, 1718-1741). */
module ConversationHistory {

  datatype Message = Message(role: string, content: string)

  /** Length in UTF-8. */
  function Utf8Length(s: string): nat {
    if s == [] then 0
    else
      (var n := s[0] as int; if n < 0x80 then 1 else if n < 0x800 then 2 else if n < 0x10000 then 3 else 4)
      + Utf8Length(s[1..])
  }

  /** How many characters have a code point of `n` or more. */
  function From(s: string, n: nat): nat {
    if s == [] then 0 else (if s[0] as int >= n then 1 else 0) + From(s[1..], n)
  }

  /** One byte each, and one more from every bound on at which UTF-8 needs one. */
  lemma {:induction false} Utf8LengthCounts(s: string)
    ensures Utf8Length(s) == |s| + From(s, 0x80) + From(s, 0x800) + From(s, 0x10000)
  {
    if s != [] { Utf8LengthCounts(s[1..]); }
  }

  function Cost(m: Message): nat { Utf8Length(m.content) / 4 + 1 }

  /** The estimate of a message grows by one for every four bytes, from one on. */
  lemma CostMeans(m: Message)
    ensures 4 * (Cost(m) - 1) <= Utf8Length(m.content) < 4 * Cost(m)
  {
    hide Utf8Length;
  }

  function Estimate(history: seq<Message>): nat {
    if history == [] then 0 else Cost(history[0]) + Estimate(history[1..])
  }

  lemma DropTwo(history: seq<Message>, i: nat)
    requires i + 2 <= |history|
    ensures Estimate(history[i..]) == Cost(history[i]) + Cost(history[i + 1]) + Estimate(history[i + 2..])
  {
    hide Cost;
    assert history[i..][1..] == history[i + 1..] && history[i + 1..][1..] == history[i + 2..];
  }

  /** Dropping `n` messages is what compression should do: the estimate comes down to the trigger, or
      fewer than two messages are left, and no smaller even number would do. */
  predicate LeastDrop(history: seq<Message>, base: nat, trigger: nat, n: nat) {
    && n <= |history| && n % 2 == 0
    && (Estimate(history[n..]) + base <= trigger || |history| - n < 2)
    && forall k: nat | k < n && k % 2 == 0 :: Estimate(history[k..]) + base > trigger
  }

  /** There is exactly one such number. */
  lemma LeastDropIsUnique(history: seq<Message>, base: nat, trigger: nat, m: nat, n: nat)
    requires LeastDrop(history, base, trigger, m) && LeastDrop(history, base, trigger, n)
    ensures m == n
  {
    hide Estimate;
  }

  class History {
    var messages: seq<Message>

    constructor (messages: seq<Message>)
      ensures this.messages == messages
    {
      this.messages := messages;
    }

    /** Leaves a suffix of the history, and drops the least even number of messages that will do. */
    method Compress(base: nat, trigger: nat) returns (dropped: nat)
      modifies this
      ensures LeastDrop(old(messages), base, trigger, dropped)
      ensures messages == old(messages)[dropped..]
    {
      hide Estimate; hide Cost;
      var history := messages;
      assert history[0..] == history;
      if |history| < 2 { return 0; }
      var costs := seq(|history|, i requires 0 <= i < |history| => Cost(history[i]));
      var total := Sum(costs) + base;
      SumOfCosts(history, costs);
      if total <= trigger { return 0; }
      var running, toDrop := total, 0;
      while running > trigger && toDrop + 2 <= |history|
        invariant toDrop <= |history| && toDrop % 2 == 0
        invariant running == Estimate(history[toDrop..]) + base
        invariant forall k: nat | k < toDrop && k % 2 == 0 :: Estimate(history[k..]) + base > trigger
      {
        DropTwo(history, toDrop);
        running := running - (costs[toDrop] + costs[toDrop + 1]);
        toDrop := toDrop + 2;
      }
      if toDrop > 0 { messages := history[toDrop..]; }
      dropped := toDrop;
    }
  }

  function Sum(xs: seq<nat>): nat { if xs == [] then 0 else xs[0] + Sum(xs[1..]) }

  lemma {:induction false} SumOfCosts(history: seq<Message>, costs: seq<nat>)
    requires |costs| == |history| && forall i :: 0 <= i < |costs| ==> costs[i] == Cost(history[i])
    ensures Sum(costs) == Estimate(history)
  {
    hide Cost;
    if history != [] { SumOfCosts(history[1..], costs[1..]); }
  }

  // -- Grouping -------------------------------------------------------

  datatype Speaker = User | Assistant

  datatype Turn = Turn(speaker: Speaker, content: string)

  datatype Unit = Exchange(user: Turn, assistant: Turn) | Alone(turn: Turn)

  function Turns(u: Unit): seq<Turn> { if u.Exchange? then [u.user, u.assistant] else [u.turn] }

  function AllTurns(units: seq<Unit>): seq<Turn> {
    if units == [] then [] else Turns(units[0]) + AllTurns(units[1..])
  }

  predicate IsUser(m: Message) { m.role == "user" }
  predicate IsAssistant(m: Message) { m.role == "assistant" }

  /** Roles other than `user` count as the assistant's. */
  function Normal(m: Message): Turn { Turn(if IsUser(m) then User else Assistant, m.content) }

  function AllNormal(history: seq<Message>): seq<Turn> {
    seq(|history|, i requires 0 <= i < |history| => Normal(history[i]))
  }

  /** Where message `k` is a user's and the next one the assistant's. */
  predicate PairAt(history: seq<Message>, k: nat) {
    k + 1 < |history| && IsUser(history[k]) && IsAssistant(history[k + 1])
  }

  /** Where unit `i` starts in the flattened list. */
  function Start(units: seq<Unit>, i: nat): nat
    requires i <= |units|
  {
    |AllTurns(units[..i])|
  }

  lemma AllTurnsSnoc(units: seq<Unit>, u: Unit)
    ensures AllTurns(units + [u]) == AllTurns(units) + Turns(u)
    decreases |units|
  {
    if units == [] {
      assert units + [u] == [u] && [u][1..] == [];
    } else {
      assert (units + [u])[1..] == units[1..] + [u];
      AllTurnsSnoc(units[1..], u);
    }
  }

  /** The units cover the messages before `n`, and are exchanges exactly at the adjacent pairs. */
  predicate Covers(history: seq<Message>, n: nat, units: seq<Unit>) {
    && n <= |history|
    && AllTurns(units) == AllNormal(history)[..n]
    && (forall i: nat | i < |units| :: units[i].Exchange? <==> PairAt(history, Start(units, i)))
    && forall k: nat | k < n && PairAt(history, k) :: exists i: nat :: i < |units| && Start(units, i) == k
  }

  lemma CoversOneMore(history: seq<Message>, n: nat, units: seq<Unit>, u: Unit)
    requires Covers(history, n, units) && n + |Turns(u)| <= |history|
    requires u.Exchange? <==> PairAt(history, n)
    requires
      u == if u.Exchange? then Exchange(Normal(history[n]), Normal(history[n + 1])) else Alone(Normal(history[n]))
    ensures Covers(history, n + |Turns(u)|, units + [u])
  {
    hide IsUser; hide IsAssistant;
    var longer := units + [u];
    AllTurnsSnoc(units, u);
    assert AllTurns(longer) == AllNormal(history)[..n + |Turns(u)|];
    hide AllTurns; hide Normal;
    forall i: nat | i < |longer|
      ensures Start(longer, i) == if i < |units| then Start(units, i) else n
    {
      if i < |units| { assert longer[..i] == units[..i]; } else { assert longer[..i] == units; }
    }
    forall k: nat | k < n + |Turns(u)| && PairAt(history, k)
      ensures exists i: nat :: i < |longer| && Start(longer, i) == k
    {
      if k < n {
        var i: nat :| i < |units| && Start(units, i) == k;
        assert Start(longer, i) == k;
      } else {
        SecondIsNotUser(history, n);
        assert k == n && Start(longer, |units|) == k;
      }
    }
  }

  lemma SecondIsNotUser(history: seq<Message>, n: nat)
    ensures PairAt(history, n) ==> !PairAt(history, n + 1)
  {
    if PairAt(history, n) {
      assert history[n + 1].role[0] == 'a';
    }
  }

  /** The units flatten back to the history with normalised roles, and every adjacent pair of a user's and
      an assistant's message is one exchange, and nothing else is. */
  method GroupRecent(history: seq<Message>) returns (units: seq<Unit>)
    ensures Covers(history, |history|, units)
    ensures |AllTurns(units)| == |history|
    ensures forall k: nat | k < |history| ::
              AllTurns(units)[k]
              == Turn(if history[k].role == "user" then Speaker.User else Speaker.Assistant, history[k].content)
    ensures forall i: nat | i < |units| ::
              units[i].Exchange?
              <==> var k := Start(units, i);
                   k + 1 < |history| && history[k].role == "user" && history[k + 1].role == "assistant"
  {
    hide Normal; hide IsUser; hide IsAssistant;
    units := [];
    var i := 0;
    NothingCovered(history);
    while i < |history|
      invariant Covers(history, i, units)
    {
      hide Covers;
      if IsUser(history[i]) {
        if i + 1 < |history| && IsAssistant(history[i + 1]) {
          CoversOneMore(history, i, units, Exchange(Normal(history[i]), Normal(history[i + 1])));
          units := units + [Exchange(Normal(history[i]), Normal(history[i + 1]))];
          i := i + 2;
        } else {
          CoversOneMore(history, i, units, Alone(Normal(history[i])));
          units := units + [Alone(Normal(history[i]))];
          i := i + 1;
        }
      } else {
        CoversOneMore(history, i, units, Alone(Normal(history[i])));
        units := units + [Alone(Normal(history[i]))];
        i := i + 1;
      }
    }
    CoversMeans(history, units);
  }

  lemma CoversMeans(history: seq<Message>, units: seq<Unit>)
    requires Covers(history, |history|, units)
    ensures |AllTurns(units)| == |history|
    ensures forall k: nat | k < |history| ::
              AllTurns(units)[k]
              == Turn(if history[k].role == "user" then Speaker.User else Speaker.Assistant, history[k].content)
    ensures forall i: nat | i < |units| ::
              units[i].Exchange?
              <==> var k := Start(units, i);
                   k + 1 < |history| && history[k].role == "user" && history[k + 1].role == "assistant"
  {
    hide AllTurns;
    assert AllTurns(units) == AllNormal(history);
  }

  lemma NothingCovered(history: seq<Message>)
    ensures Covers(history, 0, [])
  {
  }

  // -- Compression and grouping together ------------------------------

  /** A history of whole exchanges: user and assistant in turn. */
  predicate Alternates(history: seq<Message>) {
    |history| % 2 == 0
    && forall k: nat | k + 1 < |history| && k % 2 == 0 :: PairAt(history, k)
  }

  lemma EvenSuffixAlternates(history: seq<Message>, n: nat)
    requires Alternates(history) && n <= |history| && n % 2 == 0
    ensures Alternates(history[n..])
  {
    hide IsUser; hide IsAssistant;
    var rest := history[n..];
    forall k: nat | k + 1 < |rest| && k % 2 == 0 ensures PairAt(rest, k) {
      assert PairAt(history, n + k);
    }
  }

  lemma {:induction false} ExchangesStartEven(history: seq<Message>, units: seq<Unit>, i: nat)
    requires Alternates(history) && Covers(history, |history|, units) && i < |units|
    ensures Start(units, i) == 2 * i < |history| && units[i].Exchange?
  {
    hide AllTurns; hide IsUser; hide IsAssistant;
    StartBounded(units, i);
    if i == 0 {
      assert units[..0] == [];
      NoTurns();
      assert |AllNormal(history)| == |history|;
      assert PairAt(history, 0);
    } else {
      ExchangesStartEven(history, units, i - 1);
      assert units[..i] == units[..i - 1] + [units[i - 1]];
      AllTurnsSnoc(units[..i - 1], units[i - 1]);
      assert PairAt(history, 2 * i);
    }
  }

  lemma NoTurns()
    ensures AllTurns([]) == []
  {
  }

  lemma StartBounded(units: seq<Unit>, i: nat)
    requires i < |units|
    ensures Start(units, i) < |AllTurns(units)|
  {
    AllTurnsSplit(units, i);
    assert |Turns(units[i])| > 0;
  }

  lemma {:induction false} AllTurnsSplit(units: seq<Unit>, i: nat)
    requires i < |units|
    ensures |AllTurns(units)| >= |AllTurns(units[..i])| + |Turns(units[i])|
  {
    if i > 0 {
      AllTurnsSplit(units[1..], i - 1);
      assert units[..i][1..] == units[1..][..i - 1];
      assert units[1..][i - 1] == units[i];
    }
  }

  /** Compression never tears an exchange apart: if the history was made of whole exchanges, so is what is
      left, and all of its units are exchanges. */
  lemma CompressionKeepsExchangesWhole(history: seq<Message>, base: nat, trigger: nat, n: nat, units: seq<Unit>)
    requires Alternates(history) && LeastDrop(history, base, trigger, n)
    requires Covers(history[n..], |history| - n, units)
    ensures |units| * 2 == |history| - n && forall i: nat | i < |units| :: units[i].Exchange?
  {
    hide Estimate; hide AllTurns;
    EvenSuffixAlternates(history, n);
    forall i: nat | i < |units| ensures units[i].Exchange? && Start(units, i) == 2 * i < |history| - n {
      ExchangesStartEven(history[n..], units, i);
    }
    if |units| > 0 {
      var last := |units| - 1;
      assert units == units[..last] + [units[last]];
      AllTurnsSnoc(units[..last], units[last]);
    } else {
      NoTurns();
    }
    assert |AllNormal(history[n..])| == |history| - n;
  }
}
