/** The items of a conversation log and the bubbles drawn for the user's own
    turns (src/adapters/types.ts, src/helpers/mirrorTurn.ts). */
module ChatLog {
  import opened Common

  type TurnId(==, !new)

  /** The record an item was reduced from: its session, when the host names
      one, and its number (seq) there. */
  datatype Stamp = Stamp(session: Option<string>, number: int)

  datatype Subtype =
    | TurnEnd | ErrorNote | Info | Reasoning | SlashCommand | CompactSummary
    | HookOutput | BackgroundTask | CommandOutput

  datatype Outcome = Completed | Interrupted | Failed

  datatype Timing = Timing(startedAt: Option<int>, endedAt: Option<int>, runMs: Option<int>)

  datatype Body =
    | UserMessage(text: string, turn: Option<TurnId>, attachments: seq<string>, timing: Timing, undelivered: Option<Outcome>)
    | QueuedMessage(text: string, turn: Option<TurnId>, attachments: seq<string>)
    | AgentMessage(text: string)
    | ToolCall(id: string)
    | ToolResult(toolUse: string)
    | Notice(subtype: Subtype, text: string)

  datatype Item = Item(body: Body, stamp: Option<Stamp>)

  const NO_TIMING := Timing(None, None, None)

  /** The turn an item is the bubble of. */
  function TurnOf(it: Item): Option<TurnId> {
    if it.body.UserMessage? || it.body.QueuedMessage? then it.body.turn else None
  }

  predicate HasSentTurn(items: seq<Item>, turn: TurnId) {
    exists i :: 0 <= i < |items| && TurnOf(items[i]) == Some(turn)
  }

  /** No turn has two bubbles. */
  predicate OneBubblePerTurn(items: seq<Item>) {
    forall i, j :: 0 <= i < j < |items| && TurnOf(items[i]).Some? ==> TurnOf(items[i]) != TurnOf(items[j])
  }

  function SentTurnBubble(turn: TurnId, text: string, attachments: seq<string>, followUp: bool): (it: Item)
    ensures TurnOf(it) == Some(turn)
  {
    Item(if followUp then QueuedMessage(text, Some(turn), attachments)
         else UserMessage(text, Some(turn), attachments, NO_TIMING, None),
         None)
  }

  function MirrorSentTurn(items: seq<Item>, turn: TurnId, text: string, attachments: seq<string>, followUp: bool): seq<Item> {
    if HasSentTurn(items, turn) then items else items + [SentTurnBubble(turn, text, attachments, followUp)]
  }

  /** Mirroring draws a turn's bubble once, whoever sent it and however often
      the event arrives, and disturbs nothing else. */
  lemma MirrorOnce(items: seq<Item>, turn: TurnId, text: string, attachments: seq<string>, followUp: bool)
    ensures var once := MirrorSentTurn(items, turn, text, attachments, followUp);
      && HasSentTurn(once, turn) && items <= once
      && MirrorSentTurn(once, turn, text, attachments, followUp) == once
      && (OneBubblePerTurn(items) ==> OneBubblePerTurn(once))
      && (!HasSentTurn(items, turn) ==>
            once == items + [Item(if followUp then QueuedMessage(text, Some(turn), attachments)
                                  else UserMessage(text, Some(turn), attachments, NO_TIMING, None), None)])
  {
    var once := MirrorSentTurn(items, turn, text, attachments, followUp);
    if !HasSentTurn(items, turn) {
      assert TurnOf(once[|items|]) == Some(turn);
    }
  }

  function BubbleAt(items: seq<Item>, turn: TurnId): (at: nat)
    ensures at <= |items|
    ensures at < |items| ==> TurnOf(items[at]) == Some(turn)
    ensures forall i :: 0 <= i < at ==> TurnOf(items[i]) != Some(turn)
  {
    if items == [] then 0
    else if TurnOf(items[0]) == Some(turn) then 0
    else 1 + BubbleAt(items[1..], turn)
  }

  /** The turn's bubble replaced in place, taken out for None, or appended when
      it is gone. */
  method ReplaceTurnBubble(items: seq<Item>, turn: TurnId, next: Option<Item>) returns (out: seq<Item>)
    ensures var at := BubbleAt(items, turn);
      && (at == |items| ==> out == items + (if next.Some? then [next.value] else []))
      && (at < |items| ==> out == items[..at] + (if next.Some? then [next.value] else []) + items[at + 1..])
    ensures OneBubblePerTurn(items) && (next.Some? ==> TurnOf(next.value) == Some(turn)) ==> OneBubblePerTurn(out)
    ensures OneBubblePerTurn(items) && next.None? ==> !HasSentTurn(out, turn)
  {
    var at := 0;
    while at < |items| && TurnOf(items[at]) != Some(turn)
      invariant 0 <= at <= |items|
      invariant forall i :: 0 <= i < at ==> TurnOf(items[i]) != Some(turn)
    {
      at := at + 1;
    }
    assert at == BubbleAt(items, turn);
    if at == |items| {
      return if next.Some? then items + [next.value] else items;
    }
    out := items;
    if next.Some? {
      out := out[at := next.value];
    } else {
      out := out[..at] + out[at + 1..];
    }
  }
}
