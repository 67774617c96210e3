/**
 Repair of a transcript whose tool calls and results no longer pair up. The
 code makes one pass, looking ahead in the input and back in its own output;
 the reference looks only at the input neighbours of each message.
 */
module ToolRepair {
  import opened Options

  type Text = nat

  /** A content block; a tool block whose id is missing or not a string carries none. */
  datatype Block =
    | ToolUse(id: Option<Text>, rest: Text)
    | ToolResult(useId: Option<Text>, rest: Text)
    | OtherBlock(rest: Text)

  datatype Role = Assistant | User | OtherRole(name: Text)

  /** An array of blocks, or anything else. */
  datatype Content = Blocks(blocks: seq<Block>) | Opaque(rest: Text)

  datatype Message = Message(role: Role, content: Content, rest: Text) {
    predicate Turn(r: Role) { role == r && content.Blocks? }
  }

  function UseIds(bs: seq<Block>): set<Text> {
    set b | b in bs && b.ToolUse? && b.id.Some? :: b.id.value
  }

  function ResultIds(bs: seq<Block>): set<Text> {
    set b | b in bs && b.ToolResult? && b.useId.Some? :: b.useId.value
  }

  /** The tool calls of a neighbour, if it is an assistant turn. */
  function UsesOf(m: Option<Message>): set<Text> {
    if m.Some? && m.value.Turn(Assistant) then UseIds(m.value.content.blocks) else {}
  }

  /** The tool results of a neighbour, if it is a user turn. */
  function ResultsOf(m: Option<Message>): set<Text> {
    if m.Some? && m.value.Turn(User) then ResultIds(m.value.content.blocks) else {}
  }

  predicate UseStays(b: Block, results: set<Text>) {
    b.ToolUse? ==> b.id.Some? && b.id.value in results
  }

  predicate ResultStays(b: Block, uses: set<Text>) {
    b.ToolResult? ==> b.useId.Some? && b.useId.value in uses
  }

  function KeepUses(bs: seq<Block>, results: set<Text>): (r: seq<Block>)
    ensures |r| <= |bs|
    ensures forall b :: b in r <==> b in bs && UseStays(b, results)
    ensures |r| == |bs| <==> r == bs
  {
    if bs == [] then []
    else
      assert bs == [bs[0]] + bs[1..];
      (if UseStays(bs[0], results) then [bs[0]] else []) + KeepUses(bs[1..], results)
  }

  function KeepResults(bs: seq<Block>, uses: set<Text>): (r: seq<Block>)
    ensures |r| <= |bs|
    ensures forall b :: b in r <==> b in bs && ResultStays(b, uses)
    ensures |r| == |bs| <==> r == bs
  {
    if bs == [] then []
    else
      assert bs == [bs[0]] + bs[1..];
      (if ResultStays(bs[0], uses) then [bs[0]] else []) + KeepResults(bs[1..], uses)
  }

  /** The blocks a message keeps between these neighbours. */
  function Kept(m: Message, prev: Option<Message>, next: Option<Message>): seq<Block>
    requires m.content.Blocks?
  {
    var bs := m.content.blocks;
    if m.role == Assistant && UseIds(bs) != {} then KeepUses(bs, ResultsOf(next))
    else if m.role == User then KeepResults(bs, UsesOf(prev))
    else bs
  }

  /** The message as it is sent on, or nothing when it loses every block it had. */
  function Repair(m: Message, prev: Option<Message>, next: Option<Message>): Option<Message> {
    if m.content.Opaque? then Some(m)
    else
      var kept := Kept(m, prev, next);
      if |kept| == |m.content.blocks| then Some(m)
      else if kept == [] then None
      else Some(m.(content := Blocks(kept)))
  }

  // ── The reference ────────────────────────────────────────

  function At(ms: seq<Message>, i: int): Option<Message> {
    if 0 <= i < |ms| then Some(ms[i]) else None
  }

  /** What becomes of the i-th message, judged by its neighbours in the input alone. */
  function Local(ms: seq<Message>, i: nat): Option<Message>
    requires i < |ms|
  {
    Repair(ms[i], At(ms, i - 1), At(ms, i + 1))
  }

  function Filtered(ms: seq<Message>, n: nat): seq<Message>
    requires n <= |ms|
  {
    if n == 0 then []
    else
      var m := Local(ms, n - 1);
      if m.Some? then Filtered(ms, n - 1) + [m.value] else Filtered(ms, n - 1)
  }

  function Repaired(ms: seq<Message>): seq<Message> {
    Filtered(ms, |ms|)
  }

  // ── The one-pass code ────────────────────────────────────

  /** One message of the pass: looking ahead in the input, and back at the last message put out. */
  method RepairNext(ms: seq<Message>, i: nat, out: seq<Message>) returns (m: Option<Message>)
    requires i < |ms|
    ensures m == Repair(ms[i], Last(out), At(ms, i + 1))
  {
    var msg := ms[i];
    if msg.content.Opaque? {
      return Some(msg);
    }
    var blocks := msg.content.blocks;
    var kept;
    if msg.role == Assistant {
      if UseIds(blocks) == {} {
        return Some(msg);
      }
      var results := if i + 1 < |ms| then ResultsOf(Some(ms[i + 1])) else {};
      kept := KeepUses(blocks, results);
    } else if msg.role == User {
      var prevUses := if out != [] then UsesOf(Some(out[|out| - 1])) else {};
      kept := KeepResults(blocks, prevUses);
    } else {
      return Some(msg);
    }
    if |kept| == |blocks| {
      return Some(msg);
    }
    if kept == [] {
      return None;
    }
    return Some(msg.(content := Blocks(kept)));
  }

  /** The pass over the messages: what it keeps, and whether it removed anything. */
  method OnePass(ms: seq<Message>) returns (out: seq<Message>, changed: bool)
    ensures out == Repaired(ms)
    ensures changed <==> Repaired(ms) != ms
  {
    out, changed := [], false;
    hide Local, Repair;
    for i := 0 to |ms|
      invariant out == Filtered(ms, i)
      invariant changed <==> exists k :: 0 <= k < i && Local(ms, k) != Some(ms[k])
    {
      var m := RepairNext(ms, i, out);
      BackwardLookAgrees(ms, i);
      if m != Some(ms[i]) {
        changed := true;
      }
      if m.Some? {
        out := out + [m.value];
      }
    }
    ChangedExactly(ms);
  }

  /** A parsed request body; `messages` is `None` when missing or not an array. */
  class RequestBody {
    var messages: Option<seq<Message>>

    constructor (messages: Option<seq<Message>>)
      ensures this.messages == messages
    {
      this.messages := messages;
    }

    /** Remove orphaned tool calls and results; whether anything was removed. */
    method SanitizeToolPairs() returns (changed: bool)
      modifies this
      ensures old(messages).None? ==> !changed && messages.None?
      ensures old(messages).Some? ==>
                && messages.Some? && messages.value == Repaired(old(messages).value)
                && (changed <==> messages.value != old(messages).value)
    {
      changed := false;
      if messages.Some? {
        var out, removed := OnePass(messages.value);
        changed := removed;
        if changed {
          messages := Some(out);
        }
      }
    }
  }

  // ── Looking back in the output is looking back in the input ──

  function Last(ms: seq<Message>): Option<Message> {
    if ms == [] then None else Some(ms[|ms| - 1])
  }

  /** The last message kept among the first `n`, and where it came from. */
  lemma {:induction false} LastSurvivor(ms: seq<Message>, n: nat) returns (j: nat)
    requires n <= |ms| && Filtered(ms, n) != []
    ensures j < n && Local(ms, j) == Last(Filtered(ms, n))
    ensures forall k :: j < k < n ==> Local(ms, k).None?
  {
    hide Local;
    var m := Local(ms, n - 1);
    if m.Some? {
      assert Filtered(ms, n) == Filtered(ms, n - 1) + [m.value];
      j := n - 1;
    } else {
      j := LastSurvivor(ms, n - 1);
    }
  }

  /** A call whose next message is a user turn with its result survives, and so does the result. */
  lemma {:induction false} PairSurvives(ms: seq<Message>, i: nat, id: Text)
    requires i + 1 < |ms| && id in UsesOf(Some(ms[i])) && id in ResultsOf(Some(ms[i + 1]))
    ensures Local(ms, i).Some? && id in UsesOf(Local(ms, i))
    ensures Local(ms, i + 1).Some? && id in ResultsOf(Local(ms, i + 1))
  {
    var use :| use in ms[i].content.blocks && use.ToolUse? && use.id == Some(id);
    var result :| result in ms[i + 1].content.blocks && result.ToolResult? && result.useId == Some(id);
    assert use in Kept(ms[i], At(ms, i - 1), At(ms, i + 1));
    assert result in Kept(ms[i + 1], At(ms, i), At(ms, i + 2));
  }

  /** A surviving call has its result in the next input message. */
  lemma {:induction false} SurvivingUseIsPaired(ms: seq<Message>, i: nat, id: Text)
    requires i < |ms| && id in UsesOf(Local(ms, i))
    ensures id in UsesOf(Some(ms[i])) && i + 1 < |ms| && id in ResultsOf(Some(ms[i + 1]))
  {
    var m := Local(ms, i).value;
    var use :| use in m.content.blocks && use.ToolUse? && use.id == Some(id);
    assert use in ms[i].content.blocks;
    assert id in UseIds(ms[i].content.blocks);
    assert use in KeepUses(ms[i].content.blocks, ResultsOf(At(ms, i + 1)));
  }

  /** A surviving result has its call in the previous input message. */
  lemma {:induction false} SurvivingResultIsPaired(ms: seq<Message>, i: nat, b: Block)
    requires i < |ms| && Local(ms, i).Some? && Local(ms, i).value.Turn(User)
    requires b in Local(ms, i).value.content.blocks && b.ToolResult?
    ensures b in ms[i].content.blocks
    ensures b.useId.Some? && i > 0
    ensures b.useId.value in UsesOf(Some(ms[i - 1])) && b.useId.value in ResultsOf(Some(ms[i]))
  {
    assert b in KeepResults(ms[i].content.blocks, UsesOf(At(ms, i - 1)));
  }

  /** A result of message `i` finds its call in the last message kept exactly if it is in the message before. */
  lemma {:induction false} BackwardLookFinds(ms: seq<Message>, i: nat, id: Text)
    requires i < |ms| && id in ResultsOf(Some(ms[i]))
    ensures id in UsesOf(Last(Filtered(ms, i))) <==> id in UsesOf(At(ms, i - 1))
  {
    if id in UsesOf(At(ms, i - 1)) {
      PairSurvives(ms, i - 1, id);
    }
    if id in UsesOf(Last(Filtered(ms, i))) {
      var j := LastSurvivor(ms, i);
      SurvivingUseIsPaired(ms, j, id);
      if j + 1 < i {
        PairSurvives(ms, j, id);
      }
    }
  }

  /** Looking back at the last message kept repairs message `i` as its input neighbours would. */
  lemma {:induction false} BackwardLookAgrees(ms: seq<Message>, i: nat)
    requires i < |ms|
    ensures Repair(ms[i], Last(Filtered(ms, i)), At(ms, i + 1)) == Local(ms, i)
  {
    if ms[i].Turn(User) {
      var back, before := UsesOf(Last(Filtered(ms, i))), UsesOf(At(ms, i - 1));
      forall id <- ResultIds(ms[i].content.blocks)
        ensures id in back <==> id in before
      {
        BackwardLookFinds(ms, i, id);
      }
      AgreeingKeepsAlike(ms[i].content.blocks, back, before);
    }
  }

  lemma {:induction false} AgreeingKeepsAlike(bs: seq<Block>, a: set<Text>, b: set<Text>)
    requires forall id <- ResultIds(bs) :: id in a <==> id in b
    ensures KeepResults(bs, a) == KeepResults(bs, b)
  {
    if bs != [] {
      assert bs == [bs[0]] + bs[1..];
      if bs[0].ToolResult? && bs[0].useId.Some? {
        assert bs[0].useId.value in ResultIds(bs);
      }
      forall id <- ResultIds(bs[1..])
        ensures id in ResultIds(bs)
      {
      }
      AgreeingKeepsAlike(bs[1..], a, b);
    }
  }

  // ── Nothing removed exactly when nothing differs ─────────

  function Size(m: Message): nat {
    1 + if m.content.Blocks? then |m.content.blocks| else 0
  }

  function TotalSize(ms: seq<Message>): nat {
    if ms == [] then 0 else TotalSize(ms[..|ms| - 1]) + Size(ms[|ms| - 1])
  }

  function SizeOf(m: Option<Message>): nat {
    if m.Some? then Size(m.value) else 0
  }

  lemma {:induction false} RepairNeverGrows(m: Message, prev: Option<Message>, next: Option<Message>)
    ensures SizeOf(Repair(m, prev, next)) <= Size(m)
    ensures Repair(m, prev, next) != Some(m) ==> SizeOf(Repair(m, prev, next)) < Size(m)
  {
  }

  lemma {:induction false} FilteredSize(ms: seq<Message>, n: nat)
    requires 0 < n <= |ms|
    ensures TotalSize(Filtered(ms, n)) == TotalSize(Filtered(ms, n - 1)) + SizeOf(Local(ms, n - 1))
    ensures TotalSize(ms[..n]) == TotalSize(ms[..n - 1]) + Size(ms[n - 1])
  {
    assert ms[..n][..n - 1] == ms[..n - 1];
    var m := Local(ms, n - 1);
    if m.Some? {
      assert (Filtered(ms, n - 1) + [m.value])[..|Filtered(ms, n - 1)|] == Filtered(ms, n - 1);
    }
  }

  lemma {:induction false} FilteredIsNoLarger(ms: seq<Message>, n: nat)
    requires n <= |ms|
    ensures TotalSize(Filtered(ms, n)) <= TotalSize(ms[..n])
    ensures (exists k :: 0 <= k < n && Local(ms, k) != Some(ms[k])) ==> TotalSize(Filtered(ms, n)) < TotalSize(ms[..n])
  {
    if n > 0 {
      FilteredIsNoLarger(ms, n - 1);
      FilteredSize(ms, n);
      RepairNeverGrows(ms[n - 1], At(ms, n - 2), At(ms, n));
    }
  }

  lemma {:induction false} UnchangedStays(ms: seq<Message>, n: nat)
    requires n <= |ms| && forall k :: 0 <= k < n ==> Local(ms, k) == Some(ms[k])
    ensures Filtered(ms, n) == ms[..n]
  {
    if n > 0 {
      UnchangedStays(ms, n - 1);
    }
  }

  lemma {:induction false} ChangedExactly(ms: seq<Message>)
    ensures Repaired(ms) != ms <==> exists k :: 0 <= k < |ms| && Local(ms, k) != Some(ms[k])
  {
    FilteredIsNoLarger(ms, |ms|);
    assert ms[..|ms|] == ms;
    if forall k :: 0 <= k < |ms| ==> Local(ms, k) == Some(ms[k]) {
      UnchangedStays(ms, |ms|);
    }
  }

  // ── What the repaired transcript looks like ──────────────

  /** Where the i-th message stands in the output, if it is kept. */
  function Position(ms: seq<Message>, i: nat): nat
    requires i <= |ms|
  {
    |Filtered(ms, i)|
  }

  lemma {:induction false} KeptAtPosition(ms: seq<Message>, i: nat, n: nat)
    requires i < n <= |ms| && Local(ms, i).Some?
    ensures Position(ms, i) < |Filtered(ms, n)| && Filtered(ms, n)[Position(ms, i)] == Local(ms, i).value
  {
    if i < n - 1 {
      KeptAtPosition(ms, i, n - 1);
    }
  }

  lemma {:induction false} PositionIsKept(ms: seq<Message>, k: nat, n: nat) returns (i: nat)
    requires n <= |ms| && k < |Filtered(ms, n)|
    ensures i < n && Local(ms, i).Some? && Position(ms, i) == k && Filtered(ms, n)[k] == Local(ms, i).value
  {
    hide Local;
    if k < |Filtered(ms, n - 1)| {
      i := PositionIsKept(ms, k, n - 1);
    } else {
      i := n - 1;
    }
  }

  /** Every well-formed call is answered by the next turn, and every result answers a call of the turn before. */
  ghost predicate Paired(ms: seq<Message>) {
    forall i :: 0 <= i < |ms| ==> TurnIsPaired(ms, i)
  }

  ghost predicate TurnIsPaired(ms: seq<Message>, i: nat)
    requires i < |ms|
  {
    && UsesOf(Some(ms[i])) <= ResultsOf(At(ms, i + 1))
    && (ms[i].Turn(User) ==> forall b <- ms[i].content.blocks :: ResultStays(b, UsesOf(At(ms, i - 1))))
    && (UsesOf(Some(ms[i])) != {} ==> forall b <- ms[i].content.blocks :: b.ToolUse? ==> b.id.Some?)
  }

  lemma {:induction false} UsesAreAnswered(ms: seq<Message>, i: nat, id: Text)
    requires i < |ms| && id in UsesOf(Local(ms, i))
    ensures id in ResultsOf(At(Repaired(ms), Position(ms, i) + 1))
  {
    SurvivingUseIsPaired(ms, i, id);
    PairSurvives(ms, i, id);
    KeptAtPosition(ms, i + 1, |ms|);
    assert Position(ms, i + 1) == Position(ms, i) + 1;
  }

  lemma {:induction false} ResultsAnswer(ms: seq<Message>, i: nat, b: Block)
    requires i < |ms| && Local(ms, i).Some? && Local(ms, i).value.Turn(User)
    requires b in Local(ms, i).value.content.blocks && b.ToolResult?
    ensures ResultStays(b, UsesOf(At(Repaired(ms), Position(ms, i) - 1)))
  {
    hide Local, UsesOf, ResultsOf, Filtered, Position;
    SurvivingResultIsPaired(ms, i, b);
    PairSurvives(ms, i - 1, b.useId.value);
    KeptAtPosition(ms, i - 1, |ms|);
    NextPosition(ms, i);
    return;
  }

  /** A message after one that is kept is kept right behind it. */
  lemma {:induction false} NextPosition(ms: seq<Message>, i: nat)
    requires 0 < i < |ms| && Local(ms, i - 1).Some?
    ensures Position(ms, i) == Position(ms, i - 1) + 1
  {
  }

  /** Repair leaves every call and result paired with its neighbour, whichever turns were deleted in between. */
  lemma {:induction false} RepairedIsPaired(ms: seq<Message>)
    ensures Paired(Repaired(ms))
  {
    var out := Repaired(ms);
    forall k | 0 <= k < |out|
      ensures TurnIsPaired(out, k)
    {
      var i := PositionIsKept(ms, k, |ms|);
      var m := out[k];
      forall id <- UsesOf(Some(m))
        ensures id in ResultsOf(At(out, k + 1))
      {
        UsesAreAnswered(ms, i, id);
      }
      if m.Turn(User) {
        forall b <- m.content.blocks
          ensures ResultStays(b, UsesOf(At(out, k - 1)))
        {
          if b.ToolResult? {
            ResultsAnswer(ms, i, b);
          }
        }
      }
      if id :| id in UsesOf(Some(m)) {
        SurvivingUseIsPaired(ms, i, id);
      }
    }
  }

  /** A transcript is left alone exactly when it is paired. */
  lemma {:induction false} RepairLeavesThePaired(ms: seq<Message>)
    ensures Repaired(ms) == ms <==> Paired(ms)
  {
    if Paired(ms) {
      forall i | 0 <= i < |ms|
        ensures Local(ms, i) == Some(ms[i])
      {
        assert TurnIsPaired(ms, i);
        PairedTurnStays(ms, i);
      }
      ChangedExactly(ms);
    }
    if Repaired(ms) == ms {
      RepairedIsPaired(ms);
    }
  }

  lemma {:induction false} PairedTurnStays(ms: seq<Message>, i: nat)
    requires i < |ms| && TurnIsPaired(ms, i)
    ensures Local(ms, i) == Some(ms[i])
  {
    if ms[i].content.Blocks? {
      var bs := ms[i].content.blocks;
      if ms[i].role == Assistant && UseIds(bs) != {} {
        forall b <- bs
          ensures UseStays(b, ResultsOf(At(ms, i + 1)))
        {
          if b.ToolUse? {
            assert b.id.value in UseIds(bs);
          }
        }
        AllUsesStay(bs, ResultsOf(At(ms, i + 1)));
      } else if ms[i].role == User {
        AllResultsStay(bs, UsesOf(At(ms, i - 1)));
      }
    }
  }

  lemma {:induction false} AllUsesStay(bs: seq<Block>, results: set<Text>)
    requires forall b <- bs :: UseStays(b, results)
    ensures KeepUses(bs, results) == bs
  {
    if bs != [] {
      AllUsesStay(bs[1..], results);
      assert bs == [bs[0]] + bs[1..];
    }
  }

  lemma {:induction false} AllResultsStay(bs: seq<Block>, uses: set<Text>)
    requires forall b <- bs :: ResultStays(b, uses)
    ensures KeepResults(bs, uses) == bs
  {
    if bs != [] {
      AllResultsStay(bs[1..], uses);
      assert bs == [bs[0]] + bs[1..];
    }
  }

  /** Repairing a repaired transcript changes nothing. */
  lemma {:induction false} RepairIsIdempotent(ms: seq<Message>)
    ensures Repaired(Repaired(ms)) == Repaired(ms)
  {
    RepairedIsPaired(ms);
    RepairLeavesThePaired(Repaired(ms));
  }

  /** Which blocks survive, block by block: calls answered next, results asked for before, and everything else. */
  lemma {:induction false} SurvivesExactly(ms: seq<Message>, i: nat, b: Block)
    requires i < |ms| && ms[i].content.Blocks? && b in ms[i].content.blocks
    ensures (Local(ms, i).Some? && b in Local(ms, i).value.content.blocks) <==>
            if ms[i].role == Assistant && b.ToolUse? && UseIds(ms[i].content.blocks) != {} then
              b.id.Some? && b.id.value in ResultsOf(At(ms, i + 1))
            else if ms[i].role == User && b.ToolResult? then
              b.useId.Some? && b.useId.value in UsesOf(At(ms, i - 1))
            else true
  {
  }
}
