/** The game state: the pills on the field, the enclosure and the speech
    feedback line, with one animation frame and one speech result event. */
module Game {
  import opened Text
  import opened Pills
  import opened Transcript
  import opened Matcher

  /** The starting animal names, one pill each. */
  const Animals: seq<string> :=
    ["Lion", "Tiger", "Elephant", "Giraffe", "Zebra", "Monkey", "Panda", "Kangaroo", "Koala", "Penguin"]

  /** No two animal names have the same key, so each spoken name selects
      one pill at most. */
  lemma AnimalKeysDistinct()
    ensures forall a, b :: 0 <= a < b < |Animals| ==> Lower(Animals[a]) != Lower(Animals[b])
  {
    forall a, b | 0 <= a < b < |Animals|
      ensures Lower(Animals[a]) != Lower(Animals[b])
    {
      var x, y := Animals[a], Animals[b];
      if |x| == |y| {
        assert LowerChar(x[0]) != LowerChar(y[0]);
      }
    }
  }

  /** What one frame does to the pills, in the order it does it: pill i
      moves, or pills i and j have their collision resolved. */
  datatype Event = Moved(i: nat) | Resolved(i: nat, j: nat)

  function Second(e: Event): nat {
    match e
    case Moved(i) => i
    case Resolved(_, j) => j
  }

  /** The order of a frame's work: by first pill, then by second pill, a
      pill's own move coming before its pairs. */
  predicate Precedes(e: Event, f: Event) {
    e.i < f.i || (e.i == f.i && Second(e) < Second(f))
  }

  /** Events in strictly increasing order: no event twice, each pill moves
      before its own pairs and each pair (i, j) comes before pill j moves. */
  ghost predicate Ordered(log: seq<Event>) {
    forall m, l :: 0 <= m < l < |log| ==> Precedes(log[m], log[l])
  }

  /** Events name pills of a list of length n, and a pair names i < j. */
  ghost predicate WellFormed(log: seq<Event>, n: nat) {
    forall m :: 0 <= m < |log| ==>
      match log[m]
      case Moved(i) => i < n
      case Resolved(i, j) => i < j < n
  }

  /** The pills that an event's collision involves. */
  function Involved(e: Event): set<nat> {
    match e
    case Moved(_) => {}
    case Resolved(i, j) => {i, j}
  }

  /** The pills that some logged collision involved. */
  function Touched(log: seq<Event>): (r: set<nat>)
    ensures forall m :: 0 <= m < |log| ==> Involved(log[m]) <= r
  {
    if log == [] then {} else Touched(log[..|log| - 1]) + Involved(log[|log| - 1])
  }

  /** The pills the log moves, in the order it moves them. */
  function Moves(log: seq<Event>): seq<nat> {
    if log == [] then []
    else Moves(log[..|log| - 1]) + match log[|log| - 1] { case Moved(i) => [i] case Resolved(_, _) => [] }
  }

  /** The pills 0 to n - 1, in list order. */
  ghost function Upto(n: nat): seq<nat> {
    seq(n, k => k)
  }

  lemma UptoNext(n: nat)
    ensures Upto(n) + [n] == Upto(n + 1)
  {
  }

  /** Logging one more event adds the pills its collision involves, and
      the pill it moves, if any. */
  lemma LogAppend(log: seq<Event>, e: Event)
    ensures Touched(log + [e]) == Touched(log) + Involved(e)
    ensures Moves(log + [e]) == Moves(log) + match e { case Moved(i) => [i] case Resolved(_, _) => [] }
  {
    assert (log + [e])[..|log|] == log;
  }

  /** An event that follows every logged event keeps the log ordered and,
      when it names pills of the list, well formed. */
  lemma LogExtend(log: seq<Event>, e: Event, n: nat)
    requires Ordered(log) && WellFormed(log, n)
    requires forall m :: 0 <= m < |log| ==> Precedes(log[m], e)
    requires match e case Moved(i) => i < n case Resolved(i, j) => i < j < n
    ensures Ordered(log + [e]) && WellFormed(log + [e], n)
    ensures forall m :: 0 <= m < |log| ==> (log + [e])[m] == log[m]
  {
  }

  /** In an ordered log, a pair (i, j) is resolved while pill j has not yet
      moved in this frame. */
  lemma ResolvedBeforePartnerMoves(log: seq<Event>, m: nat, l: nat)
    requires Ordered(log) && m < |log| && l < |log|
    requires log[m].Resolved? && log[l] == Moved(log[m].j)
    requires log[m].i < log[m].j
    ensures m < l
  {
  }

  /** Where a frame stands: the pills as values, the events so far, and
      whether it has reached a colliding pair with equal velocities, on
      which `resolveCollision` never returns. */
  datatype Outcome = Outcome(s: seq<Body>, log: seq<Event>, stuck: bool)

  /** One check of `update`'s inner loop on values. Pills i and j that do
      not collide are left alone. Colliding pills with equal velocities
      stop the frame. Other colliding pills have their collision resolved:
      they swap velocities and end apart, and no other pill changes. */
  function Pair(s: seq<Body>, i: nat, j: nat, log: seq<Event>): (r: Outcome)
    requires i < j < |s|
    ensures |r.s| == |s|
  {
    if !Overlaps(BoxOf(s[i]), BoxOf(s[j])) then Outcome(s, log, false)
    else if SameVelocity(s[i], s[j]) then Outcome(s, log, true)
    else
      var p := Resolve(s[i], s[j]);
      Outcome(s[i := p.0][j := p.1], log + [Resolved(i, j)], false)
  }

  /** Pills i and j that do not collide are left alone, and so is the log.
      Colliding pills with equal velocities stop the frame. Other colliding
      pills swap velocities and end apart, the resolution is logged, and
      no other pill changes. */
  lemma PairSpec(s: seq<Body>, i: nat, j: nat, log: seq<Event>)
    requires i < j < |s|
    ensures var r := Pair(s, i, j, log);
      (r.stuck <==> Overlaps(BoxOf(s[i]), BoxOf(s[j])) && SameVelocity(s[i], s[j])) &&
      (!Overlaps(BoxOf(s[i]), BoxOf(s[j])) || r.stuck ==> r.s == s && r.log == log) &&
      (Overlaps(BoxOf(s[i]), BoxOf(s[j])) && !r.stuck ==>
        r.log == log + [Resolved(i, j)] &&
        r.s[i].m.horizontal.vel == s[j].m.horizontal.vel && r.s[i].m.vertical.vel == s[j].m.vertical.vel &&
        r.s[j].m.horizontal.vel == s[i].m.horizontal.vel && r.s[j].m.vertical.vel == s[i].m.vertical.vel &&
        !Overlaps(BoxOf(r.s[i]), BoxOf(r.s[j]))) &&
      (forall k :: 0 <= k < |s| && k != i && k != j ==> r.s[k] == s[k]) &&
      (forall k :: 0 <= k < |s| ==> r.s[k].width == s[k].width && r.s[k].height == s[k].height)
  {
  }

  /** `update`'s inner loop for pill i on values, from pill j on: each
      later pill in turn is checked against pill i, as `Pair` says, until
      the end of the list or a stuck pair. */
  function Turn(s: seq<Body>, i: nat, j: nat, log: seq<Event>): (r: Outcome)
    requires i < j <= |s|
    ensures |r.s| == |s|
    ensures forall k :: 0 <= k < |s| ==> r.s[k].width == s[k].width && r.s[k].height == s[k].height
    decreases |s| - j
  {
    if j == |s| then Outcome(s, log, false)
    else
      var p := Pair(s, i, j, log);
      if p.stuck then p else Turn(p.s, i, j + 1, p.log)
  }

  /** Pill i's turn from pill j on keeps the events already logged and
      adds only resolutions of pairs (i, j') with j <= j'. */
  lemma {:induction false} TurnLog(s: seq<Body>, i: nat, j: nat, log: seq<Event>)
    requires i < j <= |s|
    ensures var r := Turn(s, i, j, log);
      |log| <= |r.log| && r.log[..|log|] == log &&
      forall m :: |log| <= m < |r.log| ==> r.log[m].Resolved? && r.log[m].i == i && j <= r.log[m].j < |s|
    decreases |s| - j
  {
    if j < |s| {
      var p := Pair(s, i, j, log);
      if !p.stuck {
        TurnLog(p.s, i, j + 1, p.log);
      }
    }
  }

  /** Pill i's turn leaves the pills before pill i alone. */
  lemma {:induction false} TurnKeepsEarlier(s: seq<Body>, i: nat, j: nat, log: seq<Event>)
    requires i < j <= |s|
    ensures forall k :: 0 <= k < i ==> Turn(s, i, j, log).s[k] == s[k]
    decreases |s| - j
  {
    if j < |s| {
      var p := Pair(s, i, j, log);
      if !p.stuck {
        TurnKeepsEarlier(p.s, i, j + 1, p.log);
      }
    }
  }

  /** One frame of `update` on values, from pill i on: pill i moves, then
      its collisions with the later pills are resolved, then the next pill
      takes its turn. The frame stops where it gets stuck. */
  function Frame(s: seq<Body>, i: nat, log: seq<Event>, fieldWidth: real, fieldHeight: real): (r: Outcome)
    requires i <= |s|
    ensures |r.s| == |s|
    ensures forall k :: 0 <= k < |s| ==> r.s[k].width == s[k].width && r.s[k].height == s[k].height
    decreases |s| - i
  {
    if i == |s| then Outcome(s, log, false)
    else
      var t := Turn(s[i := MoveBody(s[i], fieldWidth, fieldHeight)], i, i + 1, log + [Moved(i)]);
      if t.stuck then t else Frame(t.s, i + 1, t.log, fieldWidth, fieldHeight)
  }

  /** A frame from pill i on is pill i's turn, then the rest of the frame. */
  lemma FrameUnfold(s: seq<Body>, i: nat, log: seq<Event>, fieldWidth: real, fieldHeight: real)
    requires i < |s|
    ensures var t := Turn(s[i := MoveBody(s[i], fieldWidth, fieldHeight)], i, i + 1, log + [Moved(i)]);
      Frame(s, i, log, fieldWidth, fieldHeight) == if t.stuck then t else Frame(t.s, i + 1, t.log, fieldWidth, fieldHeight)
  {
  }

  /** One pass of `Turn`: the pair (i, j), then the rest of the turn. */
  lemma TurnUnfold(s: seq<Body>, i: nat, j: nat, log: seq<Event>)
    requires i < j < |s|
    ensures var p := Pair(s, i, j, log);
      Turn(s, i, j, log) == if p.stuck then p else Turn(p.s, i, j + 1, p.log)
  {
  }

  /** Every pill that no logged collision involved is where `before` had
      it, after one `move` when it is among the first `moved` pills. */
  ghost predicate Progress(s: seq<Body>, before: seq<Body>, log: seq<Event>, moved: nat, fieldWidth: real, fieldHeight: real) {
    |before| == |s| &&
    forall k :: 0 <= k < |s| && k !in Touched(log) ==>
      s[k] == if k < moved then MoveBody(before[k], fieldWidth, fieldHeight) else before[k]
  }

  /** Some colliding pair has equal velocities: `resolveCollision` on it
      never returns. */
  ghost predicate StuckIn(s: seq<Body>) {
    exists i, j :: 0 <= i < j < |s| && Overlaps(BoxOf(s[i]), BoxOf(s[j])) && SameVelocity(s[i], s[j])
  }

  /** Pill i's turn from pill j on keeps the log ordered and well formed
      when everything logged so far comes before the pair (i, j); after
      it the log names no pill after pill i. */
  lemma {:induction false} TurnOrdered(s: seq<Body>, i: nat, j: nat, log: seq<Event>)
    requires i < j <= |s|
    requires Ordered(log) && WellFormed(log, |s|)
    requires forall m :: 0 <= m < |log| ==> log[m].i < i || (log[m].i == i && Second(log[m]) < j)
    ensures var r := Turn(s, i, j, log);
      Ordered(r.log) && WellFormed(r.log, |s|) && forall m :: 0 <= m < |r.log| ==> r.log[m].i <= i
    decreases |s| - j
  {
    if j < |s| {
      var p := Pair(s, i, j, log);
      if !p.stuck {
        if p.log != log {
          LogExtend(log, Resolved(i, j), |s|);
        }
        TurnOrdered(p.s, i, j + 1, p.log);
      }
    }
  }

  /** Pill i's turn logs no move. */
  lemma {:induction false} TurnMoves(s: seq<Body>, i: nat, j: nat, log: seq<Event>)
    requires i < j <= |s|
    ensures Moves(Turn(s, i, j, log).log) == Moves(log)
    decreases |s| - j
  {
    if j < |s| {
      var p := Pair(s, i, j, log);
      if !p.stuck {
        if p.log != log {
          LogAppend(log, Resolved(i, j));
        }
        TurnMoves(p.s, i, j + 1, p.log);
      }
    }
  }

  /** Pill i's turn gets stuck only at a colliding pair with equal
      velocities. */
  lemma {:induction false} TurnStuck(s: seq<Body>, i: nat, j: nat, log: seq<Event>)
    requires i < j <= |s|
    ensures var r := Turn(s, i, j, log); r.stuck ==> StuckIn(r.s)
    decreases |s| - j
  {
    if j < |s| {
      var p := Pair(s, i, j, log);
      if p.stuck {
        assert Overlaps(BoxOf(p.s[i]), BoxOf(p.s[j])) && SameVelocity(p.s[i], p.s[j]);
      } else {
        TurnStuck(p.s, i, j + 1, p.log);
      }
    }
  }

  /** Checking the pair (i, j) keeps every pill that no logged collision
      involved where it was. */
  lemma PairProgress(s: seq<Body>, i: nat, j: nat, log: seq<Event>, before: seq<Body>, fieldWidth: real, fieldHeight: real)
    requires i < j < |s|
    requires Progress(s, before, log, i + 1, fieldWidth, fieldHeight)
    ensures var p := Pair(s, i, j, log);
      !p.stuck ==> Progress(p.s, before, p.log, i + 1, fieldWidth, fieldHeight)
  {
    var p := Pair(s, i, j, log);
    if !p.stuck && p.log != log {
      LogAppend(log, Resolved(i, j));
    }
  }

  /** A pill that no collision of pill i's turn involved keeps its state,
      so it stays where the frame found it, after one `move` when it is
      among the first i + 1 pills. */
  lemma {:induction false} TurnProgress(s: seq<Body>, i: nat, j: nat, log: seq<Event>, before: seq<Body>, fieldWidth: real, fieldHeight: real)
    requires i < j <= |s|
    requires Progress(s, before, log, i + 1, fieldWidth, fieldHeight)
    ensures var r := Turn(s, i, j, log);
      !r.stuck ==> Progress(r.s, before, r.log, i + 1, fieldWidth, fieldHeight)
    decreases |s| - j
  {
    if j < |s| {
      var p := Pair(s, i, j, log);
      PairProgress(s, i, j, log, before, fieldWidth, fieldHeight);
      TurnUnfold(s, i, j, log);
      if p.stuck {
        assert Turn(s, i, j, log) == p;
      } else {
        TurnProgress(p.s, i, j + 1, p.log, before, fieldWidth, fieldHeight);
        assert Turn(s, i, j, log) == Turn(p.s, i, j + 1, p.log);
      }
    } else {
      assert Turn(s, i, j, log) == Outcome(s, log, false);
    }
  }

  /** A frame from pill i on keeps the log ordered and well formed when
      everything logged so far belongs to the pills before pill i: every
      pill moves before its own pairs, and each pair (i, j) is resolved at
      most once, after pill i moves and before pill j does. */
  lemma {:induction false} FrameOrdered(s: seq<Body>, i: nat, log: seq<Event>, fieldWidth: real, fieldHeight: real)
    requires i <= |s|
    requires Ordered(log) && WellFormed(log, |s|)
    requires forall m :: 0 <= m < |log| ==> log[m].i < i
    ensures var r := Frame(s, i, log, fieldWidth, fieldHeight);
      Ordered(r.log) && WellFormed(r.log, |s|)
    decreases |s| - i
  {
    if i < |s| {
      var s', log' := s[i := MoveBody(s[i], fieldWidth, fieldHeight)], log + [Moved(i)];
      LogExtend(log, Moved(i), |s|);
      TurnOrdered(s', i, i + 1, log');
      var t := Turn(s', i, i + 1, log');
      FrameUnfold(s, i, log, fieldWidth, fieldHeight);
      if !t.stuck {
        FrameOrdered(t.s, i + 1, t.log, fieldWidth, fieldHeight);
        assert Frame(s, i, log, fieldWidth, fieldHeight) == Frame(t.s, i + 1, t.log, fieldWidth, fieldHeight);
      }
    } else {
      assert Frame(s, i, log, fieldWidth, fieldHeight) == Outcome(s, log, false);
    }
  }

  /** A frame that runs to the end from pill i on moves every pill from i
      on exactly once, in list order. */
  lemma {:induction false} FrameMoves(s: seq<Body>, i: nat, log: seq<Event>, fieldWidth: real, fieldHeight: real)
    requires i <= |s|
    requires Moves(log) == Upto(i)
    ensures var r := Frame(s, i, log, fieldWidth, fieldHeight);
      !r.stuck ==> Moves(r.log) == Upto(|s|)
    decreases |s| - i
  {
    if i < |s| {
      var s', log' := s[i := MoveBody(s[i], fieldWidth, fieldHeight)], log + [Moved(i)];
      LogAppend(log, Moved(i));
      TurnMoves(s', i, i + 1, log');
      var t := Turn(s', i, i + 1, log');
      FrameUnfold(s, i, log, fieldWidth, fieldHeight);
      if !t.stuck {
        UptoNext(i);
        FrameMoves(t.s, i + 1, t.log, fieldWidth, fieldHeight);
        assert Frame(s, i, log, fieldWidth, fieldHeight) == Frame(t.s, i + 1, t.log, fieldWidth, fieldHeight);
      }
    } else {
      assert Frame(s, i, log, fieldWidth, fieldHeight) == Outcome(s, log, false);
    }
  }

  /** A frame gets stuck only at a colliding pair with equal velocities. */
  lemma {:induction false} FrameStuck(s: seq<Body>, i: nat, log: seq<Event>, fieldWidth: real, fieldHeight: real)
    requires i <= |s|
    ensures var r := Frame(s, i, log, fieldWidth, fieldHeight);
      r.stuck ==> StuckIn(r.s)
    decreases |s| - i
  {
    if i < |s| {
      var s', log' := s[i := MoveBody(s[i], fieldWidth, fieldHeight)], log + [Moved(i)];
      TurnStuck(s', i, i + 1, log');
      var t := Turn(s', i, i + 1, log');
      FrameUnfold(s, i, log, fieldWidth, fieldHeight);
      if !t.stuck {
        FrameStuck(t.s, i + 1, t.log, fieldWidth, fieldHeight);
        assert Frame(s, i, log, fieldWidth, fieldHeight) == Frame(t.s, i + 1, t.log, fieldWidth, fieldHeight);
      }
    } else {
      assert Frame(s, i, log, fieldWidth, fieldHeight) == Outcome(s, log, false);
    }
  }

  /** After a frame that runs to the end, a pill that no logged collision
      involved has made exactly one `move` from where `before` had it. */
  lemma {:induction false} FrameProgress(s: seq<Body>, i: nat, log: seq<Event>, before: seq<Body>, fieldWidth: real, fieldHeight: real)
    requires i <= |s|
    requires Progress(s, before, log, i, fieldWidth, fieldHeight)
    ensures var r := Frame(s, i, log, fieldWidth, fieldHeight);
      !r.stuck ==> Progress(r.s, before, r.log, |s|, fieldWidth, fieldHeight)
    decreases |s| - i
  {
    if i < |s| {
      var s', log' := s[i := MoveBody(s[i], fieldWidth, fieldHeight)], log + [Moved(i)];
      LogAppend(log, Moved(i));
      assert Progress(s', before, log', i + 1, fieldWidth, fieldHeight);
      TurnProgress(s', i, i + 1, log', before, fieldWidth, fieldHeight);
      var t := Turn(s', i, i + 1, log');
      FrameUnfold(s, i, log, fieldWidth, fieldHeight);
      if !t.stuck {
        FrameProgress(t.s, i + 1, t.log, before, fieldWidth, fieldHeight);
        assert Frame(s, i, log, fieldWidth, fieldHeight) == Frame(t.s, i + 1, t.log, fieldWidth, fieldHeight);
      }
    } else {
      assert Frame(s, i, log, fieldWidth, fieldHeight) == Outcome(s, log, false);
    }
  }

  class Game {
    const fieldWidth: real
    const fieldHeight: real
    var pills: seq<WordPill>
    var enclosure: seq<string>
    var speechOutput: string

    ghost predicate Valid()
      reads this
    {
      Distinct(pills)
    }

    /** A field of the given size with the given pills, an empty enclosure
        and no feedback text. */
    constructor (fieldWidth: real, fieldHeight: real, pills: seq<WordPill>)
      requires Distinct(pills)
      ensures Valid()
      ensures this.fieldWidth == fieldWidth && this.fieldHeight == fieldHeight
      ensures this.pills == pills && enclosure == [] && speechOutput == ""
    {
      this.fieldWidth := fieldWidth;
      this.fieldHeight := fieldHeight;
      this.pills := pills;
      enclosure := [];
      speechOutput := "";
    }

    /** Every pill as a value, in list order. */
    ghost function Values(): seq<Body>
      reads this, pills
    {
      seq(|pills|, k requires 0 <= k < |pills| reads this, pills => pills[k].Value())
    }

    /** One frame of `update`, without the drawing: each pill in turn moves,
        then every later pill that collides with it has the collision
        resolved at once. The list itself never changes. Where the source
        would spin forever in `resolveCollision` (a colliding pair with
        equal velocities) the frame stops and reports `frozen`. The new
        pill states, the log and `frozen` are those of `Frame`; so the log
        holds every pill's move, in list order, and each resolved pair
        once, and a pill that took part in no collision has made exactly
        one `move`. */
    method Update() returns (frozen: bool, ghost log: seq<Event>)
      requires Valid()
      modifies pills
      ensures pills == old(pills)
      ensures var r := Frame(old(Values()), 0, [], fieldWidth, fieldHeight);
        Values() == r.s && log == r.log && frozen == r.stuck
      ensures Ordered(log) && WellFormed(log, |pills|)
      ensures frozen ==> StuckIn(Values())
      ensures !frozen ==> Moves(log) == Upto(|pills|)
      ensures !frozen ==> forall k :: 0 <= k < |pills| && k !in Touched(log) ==>
        pills[k].Value() == MoveBody(old(pills[k].Value()), fieldWidth, fieldHeight)
    {
      ghost var before := Values();
      frozen, log := TakeTurns();
      FrameOrdered(before, 0, [], fieldWidth, fieldHeight);
      FrameMoves(before, 0, [], fieldWidth, fieldHeight);
      FrameStuck(before, 0, [], fieldWidth, fieldHeight);
      FrameProgress(before, 0, [], before, fieldWidth, fieldHeight);
    }

    /** The loop of `update`: every pill takes its turn, in list order, as
        `Frame` says. */
    method TakeTurns() returns (frozen: bool, ghost log: seq<Event>)
      requires Valid()
      modifies pills
      ensures pills == old(pills)
      ensures var r := Frame(old(Values()), 0, [], fieldWidth, fieldHeight);
        Values() == r.s && log == r.log && frozen == r.stuck
    {
      ghost var before := Values();
      frozen := false;
      log := [];
      var n := |pills|;
      var i := 0;
      while i < n
        invariant 0 <= i <= n
        invariant pills == old(pills)
        invariant Frame(Values(), i, log, fieldWidth, fieldHeight) == Frame(before, 0, [], fieldWidth, fieldHeight)
      {
        ghost var s0, log0 := Values(), log;
        frozen, log := TakeTurn(i, log);
        FrameUnfold(s0, i, log0, fieldWidth, fieldHeight);
        if frozen {
          assert Frame(s0, i, log0, fieldWidth, fieldHeight) == Outcome(Values(), log, true);
          return;
        }
        i := i + 1;
      }
      assert Frame(Values(), i, log, fieldWidth, fieldHeight) == Outcome(Values(), log, false);
    }

    /** Pill i's turn in `update`: it moves, then its collisions with the
        later pills are checked, as `Turn` says. */
    method TakeTurn(i: nat, ghost log0: seq<Event>) returns (frozen: bool, ghost log: seq<Event>)
      requires Valid() && i < |pills|
      modifies pills
      ensures pills == old(pills)
      ensures var s := old(Values());
        var r := Turn(s[i := MoveBody(s[i], fieldWidth, fieldHeight)], i, i + 1, log0 + [Moved(i)]);
        Values() == r.s && log == r.log && frozen == r.stuck
    {
      MoveAt(i);
      frozen, log := CheckLater(i, log0 + [Moved(i)]);
    }

    /** `update`'s inner loop for pill i: its collision with every later
        pill j is checked and, when found, resolved, in order of j, as
        `Turn` says. */
    method CheckLater(i: nat, ghost log0: seq<Event>) returns (frozen: bool, ghost log: seq<Event>)
      requires Valid() && i < |pills|
      modifies pills
      ensures pills == old(pills)
      ensures var r := Turn(old(Values()), i, i + 1, log0);
        Values() == r.s && log == r.log && frozen == r.stuck
    {
      frozen := false;
      log := log0;
      ghost var start := Values();
      var n := |pills|;
      var j := i + 1;
      while j < n
        invariant i + 1 <= j <= n
        invariant Turn(Values(), i, j, log) == Turn(start, i, i + 1, log0)
      {
        ghost var s0, log1 := Values(), log;
        frozen, log := CheckPair(i, j, log);
        TurnUnfold(s0, i, j, log1);
        if frozen {
          return;
        }
        j := j + 1;
      }
    }

    /** One pass of `update`'s inner loop, as `Pair` says: if pills i and j
        collide, the collision is resolved and logged, or, with equal
        velocities, the frame is reported stuck. */
    method CheckPair(i: nat, j: nat, ghost log0: seq<Event>) returns (frozen: bool, ghost log: seq<Event>)
      requires Valid() && i < j < |pills|
      modifies pills[i], pills[j]
      ensures var r := Pair(old(Values()), i, j, log0);
        Values() == r.s && log == r.log && frozen == r.stuck
    {
      frozen := false;
      log := log0;
      ghost var start := Values();
      var pill, other := pills[i], pills[j];
      if pill.CheckCollision(other) {
        if pill.vx == other.vx && pill.vy == other.vy {
          frozen := true;
          return;
        }
        ghost var steps := pill.ResolveCollision(other);
        assert forall k :: 0 <= k < |pills| && k != i && k != j ==> pills[k] != pill && pills[k] != other;
        assert Values() == start[i := pill.Value()][j := other.Value()];
        log := log0 + [Resolved(i, j)];
      }
    }

    /** `move` of pill i: the pill makes its one step and no other pill
        changes. */
    method MoveAt(i: nat)
      requires Valid() && i < |pills|
      modifies pills[i]
      ensures pills[i].State() == Step(old(pills[i].State()), pills[i].width, pills[i].height, fieldWidth, fieldHeight)
      ensures Values() == old(Values())[i := MoveBody(old(Values())[i], fieldWidth, fieldHeight)]
    {
      ghost var start := Values();
      pills[i].Move(fieldWidth, fieldHeight);
      assert Values() == start[i := MoveBody(start[i], fieldWidth, fieldHeight)];
    }

    /** `onresult`: assemble the event's transcripts; show the interim one
        as feedback; a non-empty final one clears the feedback and moves the
        first pill whose label matches it to the enclosure. */
    method OnResult(results: seq<SpeechResult>, resultIndex: nat)
      requires Valid()
      modifies this
      ensures Valid()
      ensures var final := FinalText(results[Start(results, resultIndex)..]);
        final != "" ==> (pills, enclosure) == Recognize(old(pills), old(enclosure), Normalize(final)) && speechOutput == ""
      ensures var final := FinalText(results[Start(results, resultIndex)..]);
        var interim := InterimText(results[Start(results, resultIndex)..]);
        final == "" ==> (pills == old(pills) && enclosure == old(enclosure) &&
          speechOutput == if interim != "" then "You said: " + interim else old(speechOutput))
    {
      var interim, final := Assemble(results, resultIndex);
      if interim != "" {
        speechOutput := "You said: " + interim;
      }
      if final != "" {
        speechOutput := "";
        var key := Normalize(final);
        RecognizeKeepsDistinct(pills, enclosure, key);
        var index := FindIndex(pills, key);
        if index != -1 {
          var pill := pills[index];
          pills := pills[..index] + pills[index + 1..];
          enclosure := enclosure + [pill.text];
        }
      }
    }
  }
}
