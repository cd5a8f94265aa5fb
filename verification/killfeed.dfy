/** The kill feed: the last few kill messages in a ring of slots, written one
    slot ahead of the newest and shown from oldest to newest while they are
    recent. A message's payload is kept as received; the player lookups and the
    drawing are not part of this model. */
module KillMessages {

  /** Slots in the ring (`MAX_KILLMSGS`). */
  const MaxKillMsgs: int := 5

  /** The tick a reset slot carries: far enough in the past never to show. */
  const ResetTick: int := -100000

  /** How long, in game ticks, a kill stays on screen (`50*10`). */
  const ShowTicks: int := 500

  /** What a kill message says: victim, killer, weapon and mode flags. */
  datatype Payload = Payload(victim: int, killer: int, weapon: int, modeSpecial: int)

  /** One slot: the message and the game tick it arrived at. */
  datatype Kill = Kill(payload: Payload, tick: int)

  /** Only a kill message touches the feed; every other message type is ignored. */
  datatype MsgType = SvKillMsg | OtherMsg

  /** The feed: the slot of the newest message and the slots themselves. */
  datatype Feed = Feed(current: int, msgs: seq<Kill>)

  predicate Valid(f: Feed) {
    0 <= f.current < MaxKillMsgs && |f.msgs| == MaxKillMsgs
  }

  /** `OnReset`: the newest slot becomes 0 and every slot's tick is put far in
      the past; the payloads stay as they were. */
  function OnReset(f: Feed): (r: Feed)
    requires |f.msgs| == MaxKillMsgs
    ensures Valid(r) && r.current == 0
    ensures forall i :: 0 <= i < MaxKillMsgs ==> r.msgs[i].tick == ResetTick
    ensures forall i :: 0 <= i < MaxKillMsgs ==> r.msgs[i].payload == f.msgs[i].payload
  {
    Feed(0, seq(MaxKillMsgs, i requires 0 <= i < MaxKillMsgs => f.msgs[i].(tick := ResetTick)))
  }

  /** `OnMessage`: a kill message moves the newest slot one on, round the ring,
      and stores the payload there with the current game tick; no other slot
      changes. Any other message leaves the feed as it is. */
  function OnMessage(f: Feed, msgType: MsgType, payload: Payload, gameTick: int): (r: Feed)
    requires Valid(f)
    ensures Valid(r)
    ensures msgType == OtherMsg ==> r == f
    ensures msgType == SvKillMsg ==>
              && r.current == (if f.current == MaxKillMsgs - 1 then 0 else f.current + 1)
              && r.msgs[r.current] == Kill(payload, gameTick)
              && forall i :: 0 <= i < MaxKillMsgs && i != r.current ==> r.msgs[i] == f.msgs[i]
  {
    if msgType == SvKillMsg then
      var current := (f.current + 1) % MaxKillMsgs;
      Feed(current, f.msgs[current := Kill(payload, gameTick)])
    else f
  }

  /** The slot `OnRender` visits at step `i` (counting from 1). */
  function Slot(current: int, i: int): int {
    (current + i) % MaxKillMsgs
  }

  /** The slots `OnRender` visits, in order. */
  function VisitOrder(current: int): (order: seq<int>)
    ensures |order| == MaxKillMsgs
    ensures forall i :: 0 <= i < MaxKillMsgs ==> order[i] == Slot(current, i + 1)
  {
    seq(MaxKillMsgs, i => Slot(current, i + 1))
  }

  /** The traversal visits every slot exactly once, starting from the one after
      the newest, which is the oldest, and ending at the newest. */
  lemma VisitOrderIsPermutation(current: int)
    requires 0 <= current < MaxKillMsgs
    ensures var order := VisitOrder(current);
            && order[0] == (current + 1) % MaxKillMsgs
            && order[MaxKillMsgs - 1] == current
            && (forall i, j :: 0 <= i < j < MaxKillMsgs ==> order[i] != order[j])
            && (forall s :: 0 <= s < MaxKillMsgs <==> s in order)
  {
    var order := VisitOrder(current);
    forall s | 0 <= s < MaxKillMsgs
      ensures s in order
    {
      var i := if s > current then s - current - 1 else s + MaxKillMsgs - current - 1;
      assert order[i] == s;
    }
  }

  /** The feed's messages from oldest to newest, as the traversal meets them. */
  function Ordered(f: Feed): (kills: seq<Kill>)
    requires Valid(f)
    ensures |kills| == MaxKillMsgs
    ensures forall i :: 0 <= i < MaxKillMsgs ==> kills[i] == f.msgs[VisitOrder(f.current)[i]]
  {
    seq(MaxKillMsgs, i requires 0 <= i < MaxKillMsgs => f.msgs[Slot(f.current, i + 1)])
  }

  /** The ring is a queue of the last five messages: a kill message drops the
      oldest and appends the new one at the newest end. */
  lemma OnMessageShifts(f: Feed, payload: Payload, gameTick: int)
    requires Valid(f)
    ensures Ordered(OnMessage(f, SvKillMsg, payload, gameTick)) == Ordered(f)[1..] + [Kill(payload, gameTick)]
  {
    var r := OnMessage(f, SvKillMsg, payload, gameTick);
    var a, b := Ordered(r), Ordered(f)[1..] + [Kill(payload, gameTick)];
    forall i | 0 <= i < MaxKillMsgs
      ensures a[i] == b[i]
    {
      if i < MaxKillMsgs - 1 {
        assert Slot(r.current, i + 1) == Slot(f.current, i + 2);
      }
    }
  }

  /** The expiry test of `OnRender`: an entry is shown unless the game is more
      than `ShowTicks` ticks past it. */
  predicate Shown(kill: Kill, gameTick: int) {
    !(gameTick > kill.tick + ShowTicks)
  }

  /** What `OnRender` draws, oldest first: nothing when kill messages are turned
      off, else the entries that have not expired. */
  function Visible(f: Feed, showKillMessages: bool, gameTick: int): (shown: seq<Kill>)
    requires Valid(f)
    ensures |shown| <= MaxKillMsgs
    ensures !showKillMessages ==> shown == []
    ensures forall k :: k in shown ==> Shown(k, gameTick) && k in f.msgs
    ensures showKillMessages ==> forall i :: 0 <= i < MaxKillMsgs && Shown(f.msgs[i], gameTick) ==> f.msgs[i] in shown
    ensures showKillMessages ==> shown == Unexpired(Ordered(f), gameTick)
  {
    assert forall i :: 0 <= i < MaxKillMsgs ==> f.msgs[i] in Ordered(f) by {
      forall i | 0 <= i < MaxKillMsgs
        ensures f.msgs[i] in Ordered(f)
      {
        var j := if i > f.current then i - f.current - 1 else i + MaxKillMsgs - f.current - 1;
        assert Ordered(f)[j] == f.msgs[i];
      }
    }
    if showKillMessages then Unexpired(Ordered(f), gameTick) else []
  }

  /** The entries of `kills` that are still shown, in their order. */
  function Unexpired(kills: seq<Kill>, gameTick: int): (shown: seq<Kill>)
    ensures |shown| <= |kills|
    ensures forall k :: k in shown <==> k in kills && Shown(k, gameTick)
    ensures (forall i :: 0 <= i < |kills| ==> !Shown(kills[i], gameTick)) ==> shown == []
    ensures |kills| == 1 ==> shown == if Shown(kills[0], gameTick) then kills else []
  {
    if kills == [] then []
    else
      var rest := Unexpired(kills[1..], gameTick);
      assert forall k :: k in kills <==> k == kills[0] || k in kills[1..];
      if Shown(kills[0], gameTick) then [kills[0]] + rest else rest
  }

  /** The filter works piecewise: what survives of `a + b` is what survives of
      `a` followed by what survives of `b`, so the shown entries keep the
      order they had in the ring. */
  lemma {:induction false} UnexpiredAppend(a: seq<Kill>, b: seq<Kill>, gameTick: int)
    ensures Unexpired(a + b, gameTick) == Unexpired(a, gameTick) + Unexpired(b, gameTick)
    decreases |a|
  {
    if a != [] {
      var ab := a + b;
      assert ab[0] == a[0] && ab[1..] == a[1..] + b;
      UnexpiredAppend(a[1..], b, gameTick);
      var tail := Unexpired(a[1..], gameTick) + Unexpired(b, gameTick);
      if Shown(a[0], gameTick) {
        assert Unexpired(ab, gameTick) == [a[0]] + tail;
        assert Unexpired(a, gameTick) == [a[0]] + Unexpired(a[1..], gameTick);
      } else {
        assert Unexpired(ab, gameTick) == tail;
      }
    } else {
      assert a + b == b;
    }
  }

  /** A freshly reset feed shows nothing at any tick from `ResetTick + ShowTicks + 1`
      on, which every running game is past. */
  lemma ResetShowsNothing(f: Feed, showKillMessages: bool, gameTick: int)
    requires |f.msgs| == MaxKillMsgs && gameTick > ResetTick + ShowTicks
    ensures Visible(OnReset(f), showKillMessages, gameTick) == []
  {
  }

  /** A kill is shown, as the newest entry, from the tick it arrives for
      `ShowTicks` ticks more, and not after. */
  lemma NewKillShownFor(f: Feed, payload: Payload, arrived: int, gameTick: int)
    requires Valid(f) && arrived <= gameTick
    ensures var r := OnMessage(f, SvKillMsg, payload, arrived);
            && Ordered(r)[MaxKillMsgs - 1] == Kill(payload, arrived)
            && (Kill(payload, arrived) in Visible(r, true, gameTick) <==> gameTick <= arrived + ShowTicks)
  {
    OnMessageShifts(f, payload, arrived);
  }
}
