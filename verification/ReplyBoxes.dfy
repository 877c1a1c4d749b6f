/** What the boxes in a reply do to an agent's memory (zhongshu-orb/src/agent.rs:168-257, 297-303), said on the
    characters of the reply. */
module ReplyBoxes {
  import opened Text
  import opened AgentMemory

  // -- Boxes in a text ------------------------------------------------

  /** `line` stands at `i`, from the beginning or a line break to the next line break or the end. */
  predicate LineAt(text: string, line: string, i: nat) {
    && i + |line| <= |text| && text[i..i + |line|] == line && '\n' !in line
    && (i == 0 || text[i - 1] == '\n') && (i + |line| == |text| || text[i + |line|] == '\n')
  }

  predicate NoSpaceAround(text: string) {
    text != [] && !IsWhitespace(text[0]) && !IsWhitespace(text[|text| - 1])
  }

  /** A list item whose box holds `mark`. */
  function Marker(bullet: char, mark: char): string { [bullet, ' ', '[', mark, ']', ' '] }

  ghost predicate IsBox(line: string, mark: char, text: string) {
    && NoSpaceAround(text)
    && exists lead, gap, tail ::
         && IsBlank(lead) && IsBlank(gap) && IsBlank(tail)
         && (line == lead + (Marker('-', mark) + (gap + text)) + tail
             || line == lead + (Marker('*', mark) + (gap + text)) + tail)
  }

  /** The text says, on a line of its own, that this item is marked so. */
  ghost predicate Says(reply: string, mark: char, text: string) {
    exists i: nat, line :: LineAt(reply, line, i) && IsBox(line, mark, text)
  }

  // -- The boxes are found --------------------------------------------

  lemma {:induction false} FirstLine(text: string)
    ensures LineAt(text, Lines(text)[0], 0)
  {
    if text != [] && text[0] != '\n' {
      var first := Lines(text[1..])[0];
      FirstLine(text[1..]);
      assert text[1..][..|first|] == text[1..1 + |first|];
    }
  }

  lemma NoBreakInside(text: string, line: string, i: nat)
    requires LineAt(text, line, i)
    ensures forall k :: i <= k < i + |line| ==> text[k] != '\n'
  {
    forall k | i <= k < i + |line| ensures text[k] != '\n' { assert text[k] == line[k - i]; }
  }

  lemma OneLineAt(text: string, line: string, other: string, i: nat)
    requires LineAt(text, line, i) && LineAt(text, other, i)
    ensures line == other
  {
    NoBreakInside(text, line, i);
    NoBreakInside(text, other, i);
    assert |line| == |other|;
  }

  lemma LineLater(text: string, line: string, i: nat)
    requires text != [] && i > 0
    ensures LineAt(text, line, i) <==> LineAt(text[1..], line, i - 1) && (i == 1 ==> text[0] == '\n')
  {
    if i + |line| <= |text| { assert text[i..i + |line|] == text[1..][i - 1..i - 1 + |line|]; }
  }

  ghost predicate StandsAfter(text: string, line: string, from: nat) {
    exists i: nat :: i > from && LineAt(text, line, i)
  }

  lemma {:induction false} LaterLines(text: string, line: string)
    ensures line in Lines(text)[1..] <==> StandsAfter(text, line, 0)
  {
    if text != [] {
      var rest := text[1..];
      LaterLines(rest, line);
      FirstLine(rest);
      LinesSplit(rest, line);
      if LineAt(rest, line, 0) { OneLineAt(rest, line, Lines(rest)[0], 0); }
      assert Lines(text)[1..] == if text[0] == '\n' then Lines(rest) else Lines(rest)[1..];
      hide Lines;
      LaterOrNext(text, line);
    }
  }

  lemma LaterOrNext(text: string, line: string)
    requires text != []
    ensures
      StandsAfter(text, line, 0)
      <==> StandsAfter(text[1..], line, 0) || (text[0] == '\n' && LineAt(text[1..], line, 0))
  {
    hide LineAt;
    var rest := text[1..];
    LineLater(text, line, 1);
    if StandsAfter(text, line, 0) {
      var i: nat :| i > 0 && LineAt(text, line, i);
      LineLater(text, line, i);
    }
    if StandsAfter(rest, line, 0) {
      var i: nat :| i > 0 && LineAt(rest, line, i);
      LineLater(text, line, i + 1);
    }
  }

  lemma LinesSplit(text: string, line: string)
    ensures line in Lines(text) <==> line == Lines(text)[0] || line in Lines(text)[1..]
  {
    assert Lines(text) == [Lines(text)[0]] + Lines(text)[1..];
  }

  lemma LinesMean(text: string, line: string)
    ensures line in Lines(text) <==> exists i: nat :: LineAt(text, line, i)
  {
    FirstLine(text);
    LaterLines(text, line);
    LinesSplit(text, line);
    if LineAt(text, line, 0) { OneLineAt(text, line, Lines(text)[0], 0); }
    hide LineAt; hide Lines;
    assert StandsAfter(text, line, 0) || LineAt(text, line, 0) <==> exists i: nat :: LineAt(text, line, i);
  }

  lemma {:induction false} TrimStartDrops(lead: string, s: string)
    requires IsBlank(lead) && (s == [] || !IsWhitespace(s[0]))
    ensures TrimStart(lead + s) == s
  {
    if lead == [] {
      assert lead + s == s;
    } else {
      assert (lead + s)[0] == lead[0] && (lead + s)[1..] == lead[1..] + s;
      TrimStartDrops(lead[1..], s);
    }
  }

  lemma {:induction false} TrimEndDrops(s: string, tail: string)
    requires IsBlank(tail) && (s == [] || !IsWhitespace(s[|s| - 1]))
    ensures TrimEnd(s + tail) == s
  {
    if tail == [] {
      assert s + tail == s;
    } else {
      var shorter := tail[..|tail| - 1];
      assert (s + tail)[|s + tail| - 1] == tail[|tail| - 1] && (s + tail)[..|s + tail| - 1] == s + shorter;
      TrimEndDrops(s, shorter);
    }
  }

  lemma TrimDrops(lead: string, s: string, tail: string)
    requires IsBlank(lead) && IsBlank(tail) && NoSpaceAround(s)
    ensures Trim(lead + s + tail) == s
  {
    ConcatAssoc(lead, s, tail);
    assert (s + tail)[0] == s[0];
    hide IsBlank; hide TrimStart; hide TrimEnd; hide IsWhitespace;
    TrimStartDrops(lead, s + tail);
    TrimEndDrops(s, tail);
  }

  lemma {:induction false} TrimStartParts(s: string) returns (lead: string)
    ensures s == lead + TrimStart(s) && IsBlank(lead)
    ensures TrimStart(s) != [] ==> !IsWhitespace(TrimStart(s)[0])
  {
    lead := [];
    if s != [] && IsWhitespace(s[0]) {
      var rest := TrimStartParts(s[1..]);
      lead := [s[0]] + rest;
      assert s == [s[0]] + s[1..];
      ConcatAssoc([s[0]], rest, TrimStart(s));
    }
  }

  lemma {:induction false} TrimEndParts(s: string) returns (tail: string)
    ensures s == TrimEnd(s) + tail && IsBlank(tail)
  {
    tail := [];
    if s != [] && IsWhitespace(s[|s| - 1]) {
      var rest := TrimEndParts(s[..|s| - 1]);
      tail := rest + [s[|s| - 1]];
      assert s == s[..|s| - 1] + [s[|s| - 1]];
      ConcatAssoc(TrimEnd(s), rest, [s[|s| - 1]]);
    }
  }

  lemma TrimParts(s: string) returns (lead: string, tail: string)
    requires Trim(s) != []
    ensures s == lead + Trim(s) + tail && IsBlank(lead) && IsBlank(tail) && NoSpaceAround(Trim(s))
  {
    lead := TrimStartParts(s);
    tail := TrimEndParts(TrimStart(s));
    ConcatAssoc(lead, Trim(s), tail);
    TrimEndEnds(TrimStart(s));
    if TrimStart(s) != [] { TrimEndKeepsStart(TrimStart(s)); }
  }

  /** One line, read as the parser of the source reads it. */
  predicate Read(line: string, mark: char, text: string) {
    var t := Trim(line);
    (Marker('-', mark) <= t || Marker('*', mark) <= t) && text != [] && Trim(t[6..]) == text
  }

  lemma BoxIsRead(lead: string, bullet: char, mark: char, gap: string, text: string, tail: string)
    requires IsBlank(lead) && IsBlank(gap) && IsBlank(tail) && NoSpaceAround(text) && (bullet == '-' || bullet == '*')
    ensures Read(lead + (Marker(bullet, mark) + (gap + text)) + tail, mark, text)
  {
    var core := Marker(bullet, mark) + (gap + text);
    assert core[0] == bullet && core[|core| - 1] == text[|text| - 1] && core[6..] == gap + text;
    assert gap + text == gap + text + [] && IsBlank([]);
    hide Trim; hide IsBlank;
    TrimDrops(lead, core, tail);
    TrimDrops(gap, text, []);
  }

  lemma EndsLike(t: string, s: string, tail: string)
    requires NoSpaceAround(t) && |t| > 6 && t[6..] == s + tail && IsBlank(tail)
    ensures tail == []
  {
    var both := s + tail;
    assert forall k :: |s| <= k < |both| ==> both[k] == tail[k - |s|];
    assert t[6..][|t| - 7] == t[|t| - 1];
  }

  lemma ReadIsBox(line: string, mark: char, text: string)
    requires Read(line, mark, text)
    ensures IsBox(line, mark, text)
  {
    var t := Trim(line);
    var lead, tail := TrimParts(line);
    var gap, none := TrimParts(t[6..]);
    EndsLike(t, gap + text, none);
    assert t[6..] == gap + text;
    assert t == t[..6] + t[6..];
    assert t[..6] == Marker('-', mark) || t[..6] == Marker('*', mark);
  }

  lemma ReadIff(line: string, mark: char, text: string)
    ensures Read(line, mark, text) <==> IsBox(line, mark, text)
  {
    if Read(line, mark, text) { ReadIsBox(line, mark, text); }
    hide Read; hide IsBlank; hide Marker; hide NoSpaceAround;
    if IsBox(line, mark, text) {
      var lead, gap, tail :|
        && IsBlank(lead) && IsBlank(gap) && IsBlank(tail)
        && (line == lead + (Marker('-', mark) + (gap + text)) + tail
            || line == lead + (Marker('*', mark) + (gap + text)) + tail);
      var bullet := if line == lead + (Marker('-', mark) + (gap + text)) + tail then '-' else '*';
      BoxIsRead(lead, bullet, mark, gap, text, tail);
    }
  }

  lemma {:induction false} BoxesAreRead(lines: seq<string>, mark: char, text: string)
    ensures text in Boxes(lines, mark) <==> exists line :: line in lines && Read(line, mark, text)
  {
    if lines != [] {
      BoxesAreRead(lines[1..], mark, text);
      assert text in Boxes(lines, mark) <==> Read(lines[0], mark, text) || text in Boxes(lines[1..], mark);
      hide Boxes; hide Read;
      assert forall line :: line in lines <==> line == lines[0] || line in lines[1..];
    }
  }

  /** The parser finds exactly the items that the reply marks so. */
  lemma BoxesMean(reply: string, mark: char, text: string)
    ensures text in Boxes(Lines(reply), mark) <==> Says(reply, mark, text)
  {
    BoxesAreRead(Lines(reply), mark, text);
    hide LineAt; hide Read; hide IsBox; hide Lines; hide Boxes;
    forall line ensures line in Lines(reply) <==> exists i: nat :: LineAt(reply, line, i) { LinesMean(reply, line); }
    forall line ensures Read(line, mark, text) <==> IsBox(line, mark, text) { ReadIff(line, mark, text); }
  }

  // -- What they do ---------------------------------------------------

  /** Goal `i` is the first active one of its text. */
  predicate FirstActive(goals: seq<Goal>, i: nat) {
    i < |goals| && goals[i].status.Active? && forall k: nat :: k < i ==> goals[k] != goals[i]
  }

  lemma {:induction false} CompletingAll(goals: seq<Goal>, texts: seq<string>, i: nat)
    requires i < |goals|
    ensures
      var after := CompleteAll(goals, texts);
      && |after| == |goals|
      && after[i] in {goals[i], Goal(goals[i].text, Completed)}
      && (!goals[i].status.Active? || goals[i].text !in texts ==> after[i] == goals[i])
      && (FirstActive(goals, i) && goals[i].text in texts ==> after[i] == Goal(goals[i].text, Completed))
    decreases |texts|
  {
    if texts != [] {
      var next := CompleteGoal(goals, texts[0]);
      CompletingOne(goals, texts[0]);
      CompletingAll(next, texts[1..], i);
      assert goals[i].text in texts <==> goals[i].text == texts[0] || goals[i].text in texts[1..];
      if FirstActive(goals, i) && goals[i].text != texts[0] { assert FirstActive(next, i); }
    }
  }

  lemma CompletingOne(goals: seq<Goal>, text: string)
    ensures
      var after := CompleteGoal(goals, text);
      && |after| == |goals|
      && (!HasActive(goals, text) ==> after == goals)
      && forall i: nat | i < |goals| ::
           after[i]
           == if goals[i] == Goal(text, Active) && FirstActive(goals, i) then Goal(text, Completed) else goals[i]
  {
    if HasActive(goals, text) {
      var i := 0;
      while goals[i] != Goal(text, Active)
        invariant i < |goals| && forall k :: 0 <= k < i ==> goals[k] != Goal(text, Active)
        decreases |goals| - i
      {
        i := i + 1;
      }
      CompleteAt(goals, text, i);
    } else {
      CompleteNone(goals, text);
    }
  }

  /** Items the reply marks with an `x` complete the goals of their texts and do nothing else: of each text the first
      active goal for certain, and without duplicates that is the only one. */
  lemma CompletionsMean(m: Memory, reply: string, i: nat)
    requires i < |m.goals|
    ensures
      var after, goal := Apply(m, Completions(reply)), m.goals[i];
      && after.todos == m.todos && |after.goals| == |m.goals|
      && after.goals[i] in {goal, Goal(goal.text, Completed)}
      && (!goal.status.Active? || !Says(reply, 'x', goal.text) ==> after.goals[i] == goal)
      && (FirstActive(m.goals, i) && Says(reply, 'x', goal.text) ==> after.goals[i] == Goal(goal.text, Completed))
  {
    CompletingAll(m.goals, Boxes(Lines(reply), 'x'), i);
    hide Boxes; hide Lines; hide CompleteAll; hide FirstActive; hide Says;
    BoxesMean(reply, 'x', m.goals[i].text);
  }

  lemma {:induction false} AddingTodos(todos: seq<Todo>, texts: seq<string>)
    ensures
      var after := AddTodos(todos, texts);
      && todos <= after
      && (forall k :: |todos| <= k < |after| ==> !after[k].done && after[k].text in texts && after[k] !in after[..k])
      && forall text :: text in texts ==> Todo(text, false) in after
    decreases |texts|
  {
    if texts != [] {
      var next := if HasOpen(todos, texts[0]) then todos else todos + [Todo(texts[0], false)];
      AddingTodos(next, texts[1..]);
      var after := AddTodos(next, texts[1..]);
      assert Todo(texts[0], false) in next;
      assert next == after[..|next|];
      forall k | |todos| <= k < |next| ensures after[k] !in after[..k] { assert after[..k] == todos; }
      assert forall text :: text in texts <==> text == texts[0] || text in texts[1..];
    }
  }

  /** Items the reply marks with a blank are open todos afterwards: those that were not yet are added behind the
      others, each once, and nothing else is. */
  lemma TodosMean(m: Memory, reply: string)
    ensures
      var after := Apply(m, Todos(reply));
      && after.goals == m.goals && m.todos <= after.todos
      && (forall text :: Says(reply, ' ', text) ==> Todo(text, false) in after.todos)
      && forall k :: |m.todos| <= k < |after.todos| ==>
           !after.todos[k].done && Says(reply, ' ', after.todos[k].text) && after.todos[k] !in after.todos[..k]
  {
    var texts := Boxes(Lines(reply), ' ');
    AddingTodos(m.todos, texts);
    hide Boxes; hide Lines; hide AddTodos; hide Says;
    forall text ensures text in texts <==> Says(reply, ' ', text) { BoxesMean(reply, ' ', text); }
  }

  /** Adding makes sure there is an active goal of the text; completing it then leaves the goals there were before and
      the new one, completed. */
  lemma AddThenComplete(m: Memory, text: string)
    ensures
      var added := Apply(m, Add(text));
      && added.todos == m.todos && HasActive(added.goals, text)
      && (if HasActive(m.goals, text) then added == m
          else Apply(added, Complete(text)) == m.(goals := m.goals + [Goal(text, Completed)]))
  {
    if !HasActive(m.goals, text) {
      var goals := m.goals + [Goal(text, Active)];
      assert goals[|m.goals|] in goals;
      CompleteAt(goals, text, |m.goals|);
      assert goals[|m.goals| := Goal(text, Completed)] == m.goals + [Goal(text, Completed)];
    }
  }
}
