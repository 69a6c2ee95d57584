/** The event feed: subscriptions, unsubscriptions and sends interleave over one slice of select
    cases that `Send` reorders in place while `cases` aliases a prefix of it. One model covers
    `Feed` and its generic twin `FeedOf`. The same channel may be subscribed several times, so the
    account is kept in multisets. */
module Feed {
  import opened Common

  type Chan = nat
  type Message = int

  /** A select case: slot 0 receives removals, the others send to a subscriber. */
  datatype Case = RemoveCase | SendCase(ch: Chan, send: Option<Message>)

  datatype Delivery = Delivery(ch: Chan, message: Message)

  /** The progress of the one `Send` that can hold the send lock: `cases` is the prefix of length
      `active` of `sendCases`, and `next` is the index of the non-blocking pass. */
  datatype Phase = Idle | Sending(message: Message, active: nat, next: nat, nsent: nat)

  /** The feed's fields, and for the account: the subscriptions that have not been unsubscribed, the
      removals that are past the inbox and wait for `sendCases`, all deliveries so far, and for the
      current send where its deliveries start, which channels it held and which it lost before
      delivering to them. */
  datatype State = State(sendCases: seq<Case>, inbox: seq<Chan>, phase: Phase,
                         live: multiset<Chan>, removing: multiset<Chan>, log: seq<Delivery>,
                         start: nat, held: multiset<Chan>, lost: multiset<Chan>)

  const INITIAL := State([RemoveCase], [], Idle, multiset{}, multiset{}, [], 0, multiset{}, multiset{})

  /** The atomic steps. `Unsubscribe` is the first half of `remove`, under the mutex; its second half
      is `RemoveIdle` when it gets the send lock, or `SelectRemove` when a running `Send` takes the
      channel from `removeSub`. */
  datatype Action =
    | Subscribe(ch: Chan)
    | Unsubscribe(ch: Chan)
    | RemoveIdle(ch: Chan)
    | BeginSend(message: Message)
    | TrySend(accepted: bool)
    | SelectSend(chosen: nat)
    | SelectRemove(ch: Chan)
    | EndSend

  // ----- Operations on case lists

  /** The channels of a list of cases. */
  function Chans(cases: seq<Case>): multiset<Chan>
  {
    if cases == [] then multiset{}
    else Chans(cases[..|cases| - 1]) +
         match cases[|cases| - 1] case RemoveCase => multiset{} case SendCase(ch, _) => multiset{ch}
  }

  predicate Has(c: Case, ch: Chan)
  {
    c.SendCase? && c.ch == ch
  }

  /** The index of the first case with the channel, or -1. */
  function Find(cases: seq<Case>, ch: Chan): (index: int)
    ensures -1 <= index < |cases|
    ensures index >= 0 ==> Has(cases[index], ch) && forall k :: 0 <= k < index ==> !Has(cases[k], ch)
    ensures index < 0 ==> forall k :: 0 <= k < |cases| ==> !Has(cases[k], ch)
  {
    if cases == [] then -1
    else
      var index := Find(cases[..|cases| - 1], ch);
      if index >= 0 then index
      else if Has(cases[|cases| - 1], ch) then |cases| - 1 else -1
  }

  function Delete<T>(s: seq<T>, index: nat): seq<T>
    requires index < |s|
  {
    s[..index] + s[index + 1..]
  }

  lemma DeletedAt<T>(s: seq<T>, index: nat, k: nat)
    requires index <= k < |s| - 1
    ensures Delete(s, index)[k] == s[k + 1]
  {
  }

  function Swap<T>(s: seq<T>, i: nat, j: nat): seq<T>
    requires i < |s| && j < |s|
  {
    s[i := s[j]][j := s[i]]
  }

  function WithMessage(cases: seq<Case>, message: Option<Message>): (r: seq<Case>)
    ensures |r| == |cases|
    ensures forall k :: 0 <= k < |r| ==>
              r[k] == if cases[k].RemoveCase? then RemoveCase else SendCase(cases[k].ch, message)
  {
    seq(|cases|, k requires 0 <= k < |cases| =>
          if cases[k].RemoveCase? then RemoveCase else SendCase(cases[k].ch, message))
  }

  function FromInbox(inbox: seq<Chan>): (r: seq<Case>)
    ensures |r| == |inbox|
    ensures forall k :: 0 <= k < |r| ==> r[k] == SendCase(inbox[k], None)
  {
    seq(|inbox|, k requires 0 <= k < |inbox| => SendCase(inbox[k], None))
  }

  // ----- The protocol

  /** The non-blocking pass is over, and the send with it if only the remove case is left. */
  predicate PassOver(p: Phase)
  {
    p.Sending? && p.next >= p.active
  }

  predicate Enabled(s: State, a: Action)
  {
    match a
    case Subscribe(ch) => true
    case Unsubscribe(ch) => ch in s.live
    case RemoveIdle(ch) => s.phase.Idle? && ch in s.removing
    case BeginSend(message) => s.phase.Idle?
    case TrySend(accepted) => s.phase.Sending? && s.phase.next < s.phase.active
    case SelectSend(chosen) => PassOver(s.phase) && 1 <= chosen < s.phase.active
    case SelectRemove(ch) => PassOver(s.phase) && s.phase.active > 1 && ch in s.removing
    case EndSend => PassOver(s.phase) && s.phase.active == 1
  }

  /** A delivery to the case at `index`, which moves to the end of `cases`, which shrinks by one. */
  function Deliver(s: State, index: nat, message: Option<Message>, next: nat): Option<State>
    requires s.phase.Sending?
  {
    if index < s.phase.active <= |s.sendCases| && s.sendCases[index].SendCase? && message.Some? then
      Some(s.(sendCases := Swap(s.sendCases, index, s.phase.active - 1),
              phase := Sending(s.phase.message, s.phase.active - 1, next, s.phase.nsent + 1),
              log := s.log + [Delivery(s.sendCases[index].ch, message.value)]))
    else None
  }

  /** `delete(find(ch))`, which panics if the channel is not found. */
  function RemoveFound(s: State, ch: Chan): Option<State>
  {
    var index := Find(s.sendCases, ch);
    if index < 0 then None
    else Some(s.(sendCases := Delete(s.sendCases, index), removing := s.removing - multiset{ch}))
  }

  /** The state after a step, or `None` where the code would panic on an index out of range. */
  function Apply(s: State, a: Action): Option<State>
    requires Enabled(s, a)
  {
    match a
    case Subscribe(ch) =>
      Some(s.(inbox := s.inbox + [ch], live := s.live + multiset{ch}))
    case Unsubscribe(ch) =>
      Some(if ch in s.inbox then
             s.(inbox := Delete(s.inbox, IndexOf(s.inbox, ch)), live := s.live - multiset{ch})
           else
             s.(live := s.live - multiset{ch}, removing := s.removing + multiset{ch}))
    case RemoveIdle(ch) =>
      RemoveFound(s, ch)
    case BeginSend(message) =>
      var cases := WithMessage(s.sendCases + FromInbox(s.inbox), Some(message));
      Some(s.(sendCases := cases, inbox := [], phase := Sending(message, |cases|, 1, 0),
              start := |s.log|, held := Chans(cases), lost := multiset{}))
    case TrySend(accepted) =>
      if accepted then Deliver(s, s.phase.next, Some(s.phase.message), s.phase.next)
      else Some(s.(phase := s.phase.(next := s.phase.next + 1)))
    case SelectSend(chosen) =>
      if chosen < |s.sendCases| && s.sendCases[chosen].SendCase?
      then Deliver(s, chosen, s.sendCases[chosen].send, 1) else None
    case SelectRemove(ch) =>
      var removed := RemoveFound(s, ch);
      if removed.None? then None
      else if Find(s.sendCases, ch) < s.phase.active then
        Some(removed.value.(phase := s.phase.(active := s.phase.active - 1, next := 1), lost := s.lost + multiset{ch}))
      else
        Some(removed.value.(phase := s.phase.(next := 1)))
    case EndSend =>
      Some(s.(sendCases := WithMessage(s.sendCases, None), phase := Idle))
  }

  function IndexOf(s: seq<Chan>, ch: Chan): (index: nat)
    requires ch in s
    ensures index < |s| && s[index] == ch && ch !in s[..index]
  {
    if s[0] == ch then 0 else 1 + IndexOf(s[1..], ch)
  }

  // ----- The invariant

  /** The channels the log says the current send has delivered to. */
  function Delivered(log: seq<Delivery>): multiset<Chan>
  {
    if log == [] then multiset{} else Delivered(log[..|log| - 1]) + multiset{log[|log| - 1].ch}
  }

  /** Slot 0 is the remove case and every other slot sends `message`. */
  ghost predicate Slots(cases: seq<Case>, message: Option<Message>)
  {
    && |cases| >= 1 && cases[0] == RemoveCase
    && forall k :: 1 <= k < |cases| ==> cases[k].SendCase? && cases[k].send == message
  }

  /** Every subscription is in exactly one of the cases and the inbox, and a removal that has passed
      the inbox will find its channel in the cases. */
  ghost predicate Balanced(cases: multiset<Chan>, inbox: multiset<Chan>, live: multiset<Chan>, removing: multiset<Chan>)
  {
    cases + inbox == live + removing && removing <= cases
  }

  /** Every channel a send held is still active, delivered to, or lost. */
  ghost predicate Accounted(held: multiset<Chan>, active: multiset<Chan>, delivered: multiset<Chan>,
                            lost: multiset<Chan>)
  {
    held == active + delivered + lost
  }

  /** The shape of the slices: slot 0, the messages, and the bounds of the aliasing prefix. */
  ghost predicate Shape(s: State)
  {
    && Slots(s.sendCases, if s.phase.Idle? then None else Some(s.phase.message))
    && (s.phase.Sending? ==> 1 <= s.phase.active <= |s.sendCases| && 1 <= s.phase.next <= s.phase.active)
  }

  /** The account of a running send: its deliveries are its `nsent` messages, and every channel it
      held is still active, delivered to, or lost to a removal. */
  ghost predicate SendAccount(active: multiset<Chan>, sent: seq<Delivery>, nsent: nat, message: Message,
                              held: multiset<Chan>, lost: multiset<Chan>)
  {
    && nsent == |sent|
    && (forall d :: d in sent ==> d.message == message)
    && Accounted(held, active, Delivered(sent), lost)
  }

  ghost predicate Inv(s: State)
  {
    && Shape(s)
    && Balanced(Chans(s.sendCases), multiset(s.inbox), s.live, s.removing)
    && s.start <= |s.log|
    && (s.phase.Sending? ==>
          SendAccount(Chans(s.sendCases[..s.phase.active]),
                      s.log[s.start..], s.phase.nsent, s.phase.message, s.held, s.lost))
  }

  /** A waiting removal finds its channel, so `delete` is never called with -1. */
  lemma FoundInCases(s: State, ch: Chan)
    requires Inv(s) && ch in s.removing
    ensures 1 <= Find(s.sendCases, ch)
  {
    ChansFound(s.sendCases, ch);
  }

  lemma {:induction false} ChansFound(cases: seq<Case>, ch: Chan)
    requires ch in Chans(cases)
    ensures Find(cases, ch) >= 0
  {
    if !Has(cases[|cases| - 1], ch) {
      ChansFound(cases[..|cases| - 1], ch);
    }
  }

  // ----- Channels under the list operations

  lemma {:induction false} ChansConcat(a: seq<Case>, b: seq<Case>)
    ensures Chans(a + b) == Chans(a) + Chans(b)
    decreases |b|
  {
    if b == [] {
      assert a + b == a;
    } else {
      ChansConcat(a, b[..|b| - 1]);
      assert (a + b)[..|a + b| - 1] == a + b[..|b| - 1];
    }
  }

  lemma ChansOne(c: Case)
    ensures Chans([c]) == match c case RemoveCase => multiset{} case SendCase(ch, _) => multiset{ch}
  {
    assert [c][..0] == [];
  }

  /** Taking one case out takes out exactly its channel. */
  lemma ChansDelete(cases: seq<Case>, index: nat)
    requires index < |cases| && cases[index].SendCase?
    ensures Chans(cases) == Chans(Delete(cases, index)) + multiset{cases[index].ch}
  {
    assert cases == cases[..index] + ([cases[index]] + cases[index + 1..]);
    ChansConcat(cases[..index], [cases[index]] + cases[index + 1..]);
    ChansConcat([cases[index]], cases[index + 1..]);
    ChansConcat(cases[..index], cases[index + 1..]);
    ChansOne(cases[index]);
  }

  /** Moving a case to the end of a list and dropping it drops its channel. */
  lemma ChansDropSwapped(cases: seq<Case>, index: nat)
    requires index < |cases| && cases[index].SendCase?
    ensures Chans(cases) == Chans(Swap(cases, index, |cases| - 1)[..|cases| - 1]) + multiset{cases[index].ch}
  {
    ChansSwap(cases, index, |cases| - 1);
  }

  /** The active cases after a delivery are the old ones without the delivered one. */
  lemma ChansDeactivate(cases: seq<Case>, index: nat, active: nat)
    requires 1 <= index < active <= |cases| && cases[index].SendCase?
    ensures Chans(cases[..active]) == Chans(Swap(cases, index, active - 1)[..active - 1]) + multiset{cases[index].ch}
  {
    ChansDropSwapped(cases[..active], index);
    SwapPrefix(cases, index, active);
  }

  lemma SwapPrefix(cases: seq<Case>, index: nat, active: nat)
    requires index < active <= |cases|
    ensures Swap(cases, index, active - 1)[..active - 1] == Swap(cases[..active], index, active - 1)[..active - 1]
  {
  }

  lemma ChansMiddle(a: seq<Case>, c: Case, b: seq<Case>, x: Chan)
    ensures Chans(a + ([c] + b))[x] == Chans(a)[x] + (if Has(c, x) then 1 else 0) + Chans(b)[x]
  {
    ChansConcat(a, [c] + b);
    ChansConcat([c], b);
    ChansOne(c);
  }

  lemma SplitAround<T>(s: seq<T>, i: nat, x: T)
    requires i < |s|
    ensures s == s[..i] + ([s[i]] + s[i + 1..])
    ensures s[i := x] == s[..i] + ([x] + s[i + 1..])
  {
  }

  /** Replacing a case replaces its channel. */
  lemma ChansUpdate(cases: seq<Case>, i: nat, c: Case, x: Chan)
    requires i < |cases|
    ensures Chans(cases[i := c])[x] + (if Has(cases[i], x) then 1 else 0)
            == Chans(cases)[x] + (if Has(c, x) then 1 else 0)
  {
    SplitAround(cases, i, c);
    ChansMiddle(cases[..i], cases[i], cases[i + 1..], x);
    ChansMiddle(cases[..i], c, cases[i + 1..], x);
  }

  lemma ChansSwap(cases: seq<Case>, i: nat, j: nat)
    requires i <= j < |cases|
    ensures Chans(Swap(cases, i, j)) == Chans(cases)
  {
    var once := cases[i := cases[j]];
    forall x: Chan
      ensures Chans(Swap(cases, i, j))[x] == Chans(cases)[x]
    {
      ChansUpdate(cases, i, cases[j], x);
      ChansUpdate(once, j, cases[i], x);
      assert once[j] == cases[j];
    }
  }

  lemma {:induction false} ChansWithMessage(cases: seq<Case>, message: Option<Message>)
    ensures Chans(WithMessage(cases, message)) == Chans(cases)
  {
    if cases != [] {
      ChansWithMessage(cases[..|cases| - 1], message);
      var r := WithMessage(cases, message);
      assert r[..|r| - 1] == WithMessage(cases[..|cases| - 1], message);
    }
  }

  lemma {:induction false} ChansFromInbox(inbox: seq<Chan>)
    ensures Chans(FromInbox(inbox)) == multiset(inbox)
  {
    if inbox != [] {
      var init := inbox[..|inbox| - 1];
      ChansFromInbox(init);
      assert FromInbox(inbox)[..|inbox| - 1] == FromInbox(init);
      assert inbox == init + [inbox[|inbox| - 1]];
    }
  }

  lemma InboxDelete(inbox: seq<Chan>, ch: Chan)
    requires ch in inbox
    ensures multiset(inbox) == multiset(Delete(inbox, IndexOf(inbox, ch))) + multiset{ch}
  {
    var i := IndexOf(inbox, ch);
    var a, b := inbox[..i], inbox[i + 1..];
    assert inbox == a + ([ch] + b);
    assert multiset(inbox) == multiset(a) + (multiset{ch} + multiset(b));
  }

  // ----- Multiset bookkeeping

  lemma BalanceAfterRemove(cases: multiset<Chan>, left: multiset<Chan>, inbox: multiset<Chan>,
                           live: multiset<Chan>, removing: multiset<Chan>, ch: Chan)
    requires cases == left + multiset{ch} && Balanced(cases, inbox, live, removing) && ch in removing
    ensures Balanced(left, inbox, live, removing - multiset{ch})
  {
    forall x: Chan
      ensures (left + inbox)[x] == (live + (removing - multiset{ch}))[x]
    {
      assert (cases + inbox)[x] == (live + removing)[x];
    }
  }

  lemma BalanceAfterUnsubscribe(cases: multiset<Chan>, inbox: multiset<Chan>,
                                live: multiset<Chan>, removing: multiset<Chan>, ch: Chan)
    requires Balanced(cases, inbox, live, removing) && ch in live && ch !in inbox
    ensures Balanced(cases, inbox, live - multiset{ch}, removing + multiset{ch})
  {
    assert (cases + inbox)[ch] == (live + removing)[ch];
  }

  lemma BalanceAfterInbox(cases: multiset<Chan>, inbox: multiset<Chan>, left: multiset<Chan>,
                          live: multiset<Chan>, removing: multiset<Chan>, ch: Chan)
    requires Balanced(cases, inbox, live, removing) && inbox == left + multiset{ch} && ch in live
    ensures Balanced(cases, left, live - multiset{ch}, removing)
  {
    forall x: Chan
      ensures (cases + left)[x] == ((live - multiset{ch}) + removing)[x]
    {
      assert (cases + inbox)[x] == (live + removing)[x];
    }
  }

  lemma BalanceAfterSubscribe(cases: multiset<Chan>, inbox: multiset<Chan>, live: multiset<Chan>,
                              removing: multiset<Chan>, ch: Chan)
    requires Balanced(cases, inbox, live, removing)
    ensures Balanced(cases, inbox + multiset{ch}, live + multiset{ch}, removing)
  {
    forall x: Chan
      ensures (cases + (inbox + multiset{ch}))[x] == ((live + multiset{ch}) + removing)[x]
    {
      assert (cases + inbox)[x] == (live + removing)[x];
    }
  }

  lemma BalanceAfterBegin(cases: multiset<Chan>, inbox: multiset<Chan>, live: multiset<Chan>, removing: multiset<Chan>)
    requires Balanced(cases, inbox, live, removing)
    ensures Balanced(cases + inbox, multiset([]), live, removing)
  {
  }

  lemma AccountAfterDelivery(held: multiset<Chan>, active: multiset<Chan>, left: multiset<Chan>,
                             delivered: multiset<Chan>, lost: multiset<Chan>, ch: Chan)
    requires Accounted(held, active, delivered, lost) && active == left + multiset{ch}
    ensures Accounted(held, left, delivered + multiset{ch}, lost)
    ensures Accounted(held, left, delivered, lost + multiset{ch})
  {
  }

  // ----- Every step keeps the invariant

  lemma SlotsKept(cases: seq<Case>, message: Option<Message>, i: nat, j: nat)
    requires Slots(cases, message) && 1 <= i < |cases| && 1 <= j < |cases|
    ensures Slots(Swap(cases, i, j), message) && Slots(Delete(cases, i), message)
  {
  }

  lemma AccountExtended(active: multiset<Chan>, left: multiset<Chan>, log: seq<Delivery>, start: nat, nsent: nat,
                        message: Message, held: multiset<Chan>, lost: multiset<Chan>, ch: Chan)
    requires start <= |log| && active == left + multiset{ch}
    requires SendAccount(active, log[start..], nsent, message, held, lost)
    ensures SendAccount(left, (log + [Delivery(ch, message)])[start..], nsent + 1, message, held, lost)
  {
    var sent := (log + [Delivery(ch, message)])[start..];
    assert sent == log[start..] + [Delivery(ch, message)];
    assert sent[..|sent| - 1] == log[start..];
    AccountAfterDelivery(held, active, left, Delivered(log[start..]), lost, ch);
  }

  lemma DeliverKeepsShape(s: State, index: nat, next: nat)
    requires Shape(s) && s.phase.Sending? && 1 <= index < s.phase.active && 1 <= next <= s.phase.active - 1
    ensures var t := Deliver(s, index, Some(s.phase.message), next); t.Some? && Shape(t.value)
  {
    SlotsKept(s.sendCases, Some(s.phase.message), index, s.phase.active - 1);
  }

  lemma DeliverKeepsAccount(cases: seq<Case>, active: nat, index: nat, swapped: seq<Case>, log: seq<Delivery>,
                            longer: seq<Delivery>, start: nat, nsent: nat, message: Message, held: multiset<Chan>,
                            lost: multiset<Chan>)
    requires 1 <= index < active <= |cases| && cases[index].SendCase? && start <= |log|
    requires swapped == Swap(cases, index, active - 1) && longer == log + [Delivery(cases[index].ch, message)]
    requires SendAccount(Chans(cases[..active]), log[start..], nsent, message, held, lost)
    ensures SendAccount(Chans(swapped[..active - 1]), longer[start..], nsent + 1, message, held, lost)
  {
    ChansDeactivate(cases, index, active);
    AccountExtended(Chans(cases[..active]), Chans(swapped[..active - 1]), log, start, nsent, message, held, lost,
                    cases[index].ch);
  }

  lemma SwapKeepsBalance(cases: seq<Case>, i: nat, j: nat, inbox: multiset<Chan>, live: multiset<Chan>,
                         removing: multiset<Chan>)
    requires i <= j < |cases| && Balanced(Chans(cases), inbox, live, removing)
    ensures Balanced(Chans(Swap(cases, i, j)), inbox, live, removing)
  {
    ChansSwap(cases, i, j);
  }

  /** The books of a state. */
  ghost predicate Booked(s: State)
  {
    Balanced(Chans(s.sendCases), multiset(s.inbox), s.live, s.removing)
  }

  /** The account of its send. */
  ghost predicate SendBooked(s: State)
  {
    && s.phase.Sending? && s.phase.active <= |s.sendCases| && s.start <= |s.log|
    && SendAccount(Chans(s.sendCases[..s.phase.active]), s.log[s.start..], s.phase.nsent, s.phase.message,
                   s.held, s.lost)
  }

  lemma DeliverKeepsBooks(s: State, index: nat, next: nat, t: State)
    requires s.phase.Sending? && Deliver(s, index, Some(s.phase.message), next) == Some(t) && Booked(s)
    ensures Booked(t)
  {
    SwapKeepsBalance(s.sendCases, index, s.phase.active - 1, multiset(s.inbox), s.live, s.removing);
  }

  lemma DeliverKeepsSendBooks(s: State, index: nat, next: nat, t: State)
    requires SendBooked(s) && 1 <= index && Deliver(s, index, Some(s.phase.message), next) == Some(t)
    ensures SendBooked(t)
  {
    DeliverKeepsAccount(s.sendCases, s.phase.active, index, t.sendCases, s.log, t.log, s.start, s.phase.nsent,
                        s.phase.message, s.held, s.lost);
  }

  lemma InvInParts(s: State)
    requires s.phase.Sending?
    ensures Inv(s) <==> Shape(s) && Booked(s) && SendBooked(s)
  {
  }

  lemma DeliverKeepsInv(s: State, index: nat, next: nat)
    requires Inv(s) && s.phase.Sending? && 1 <= index < s.phase.active && 1 <= next <= s.phase.active - 1
    ensures var t := Deliver(s, index, Some(s.phase.message), next); t.Some? && Inv(t.value)
  {
    DeliverKeepsShape(s, index, next);
    var t := Deliver(s, index, Some(s.phase.message), next).value;
    InvInParts(s);
    DeliverKeepsBooks(s, index, next, t);
    DeliverKeepsSendBooks(s, index, next, t);
    InvInParts(t);
  }

  lemma BeginCases(s: State, message: Message)
    requires Inv(s)
    ensures var cases := WithMessage(s.sendCases + FromInbox(s.inbox), Some(message));
            Slots(cases, Some(message)) && Chans(cases) == Chans(s.sendCases) + multiset(s.inbox)
  {
    ChansConcat(s.sendCases, FromInbox(s.inbox));
    ChansFromInbox(s.inbox);
    ChansWithMessage(s.sendCases + FromInbox(s.inbox), Some(message));
  }

  lemma BeginKeepsInv(s: State, message: Message)
    requires Inv(s) && s.phase.Idle?
    ensures Inv(Apply(s, BeginSend(message)).value)
  {
    BeginCases(s, message);
    BalanceAfterBegin(Chans(s.sendCases), multiset(s.inbox), s.live, s.removing);
    var t := Apply(s, BeginSend(message)).value;
    assert t.sendCases[..t.phase.active] == t.sendCases;
    assert t.log[t.start..] == [] && Delivered([]) == multiset{};
  }

  lemma RemovedChans(cases: seq<Case>, index: nat, active: nat)
    requires 1 <= index < |cases| && active <= |cases| && cases[index].SendCase?
    ensures var left := Delete(cases, index);
            if index < active then Chans(cases[..active]) == Chans(left[..active - 1]) + multiset{cases[index].ch}
            else left[..active] == cases[..active]
  {
    var left := Delete(cases, index);
    if index < active {
      ChansDelete(cases[..active], index);
      assert left[..active - 1] == Delete(cases[..active], index);
    }
  }

  lemma RemoveKeepsBalance(s: State, ch: Chan)
    requires Inv(s) && ch in s.removing
    ensures var t := RemoveFound(s, ch);
            t.Some? && Balanced(Chans(t.value.sendCases), multiset(s.inbox), s.live, t.value.removing)
  {
    FoundInCases(s, ch);
    var index := Find(s.sendCases, ch);
    ChansDelete(s.sendCases, index);
    BalanceAfterRemove(Chans(s.sendCases), Chans(Delete(s.sendCases, index)), multiset(s.inbox),
                       s.live, s.removing, ch);
  }

  lemma RemoveKeepsShape(s: State, ch: Chan)
    requires Shape(s) && Find(s.sendCases, ch) >= 0
    ensures s.phase.Idle? ==> Shape(RemoveFound(s, ch).value)
    ensures Enabled(s, SelectRemove(ch)) ==> Shape(Apply(s, SelectRemove(ch)).value)
  {
    var index := Find(s.sendCases, ch);
    SlotsKept(s.sendCases, if s.phase.Idle? then None else Some(s.phase.message), index, index);
  }

  /** The account of a send that loses the case at `index`, which may still be active. */
  lemma AccountAfterRemoval(cases: seq<Case>, left: seq<Case>, index: nat, active: nat, active': nat,
                            sent: seq<Delivery>, nsent: nat, message: Message,
                            held: multiset<Chan>, lost: multiset<Chan>, lost': multiset<Chan>)
    requires 1 <= index < |cases| && active <= |cases| && cases[index].SendCase?
    requires left == Delete(cases, index) && active' == (if index < active then active - 1 else active) <= |left|
    requires lost' == if index < active then lost + multiset{cases[index].ch} else lost
    requires SendAccount(Chans(cases[..active]), sent, nsent, message, held, lost)
    ensures SendAccount(Chans(left[..active']), sent, nsent, message, held, lost')
  {
    RemovedChans(cases, index, active);
    if index < active {
      AccountAfterDelivery(held, Chans(cases[..active]), Chans(left[..active']), Delivered(sent), lost,
                           cases[index].ch);
    }
  }

  /** A removal taken by a running send, field by field. */
  lemma RemovedFields(s: State, ch: Chan, t: State)
    requires Shape(s) && Enabled(s, SelectRemove(ch)) && Find(s.sendCases, ch) >= 1
    requires Apply(s, SelectRemove(ch)) == Some(t)
    ensures var index, active := Find(s.sendCases, ch), s.phase.active;
            && s.sendCases[index].SendCase? && s.sendCases[index].ch == ch
            && t.sendCases == Delete(s.sendCases, index) && t.phase.Sending?
            && t.phase.active == (if index < active then active - 1 else active) <= |t.sendCases|
            && t.lost == if index < active then s.lost + multiset{ch} else s.lost
  {
  }

  lemma RemoveKeepsAccount(s: State, ch: Chan, t: State, sent: seq<Delivery>)
    requires Shape(s) && Enabled(s, SelectRemove(ch)) && Find(s.sendCases, ch) >= 1
    requires SendAccount(Chans(s.sendCases[..s.phase.active]), sent, s.phase.nsent, s.phase.message, s.held, s.lost)
    requires Apply(s, SelectRemove(ch)) == Some(t)
    ensures t.phase.Sending? && t.phase.active <= |t.sendCases|
    ensures SendAccount(Chans(t.sendCases[..t.phase.active]), sent, s.phase.nsent, s.phase.message, s.held, t.lost)
  {
    RemovedFields(s, ch, t);
    AccountAfterRemoval(s.sendCases, t.sendCases, Find(s.sendCases, ch), s.phase.active, t.phase.active,
                        sent, s.phase.nsent, s.phase.message, s.held, s.lost, t.lost);
  }

  lemma RemoveKeepsInv(s: State, ch: Chan)
    requires Inv(s) && Enabled(s, SelectRemove(ch))
    ensures var t := Apply(s, SelectRemove(ch)); t.Some? && Inv(t.value)
  {
    FoundInCases(s, ch);
    RemoveKeepsBalance(s, ch);
    RemoveKeepsShape(s, ch);
    RemoveKeepsAccount(s, ch, Apply(s, SelectRemove(ch)).value, s.log[s.start..]);
  }

  lemma RemoveIdleKeepsInv(s: State, ch: Chan)
    requires Inv(s) && Enabled(s, RemoveIdle(ch))
    ensures var t := Apply(s, RemoveIdle(ch)); t.Some? && Inv(t.value)
  {
    FoundInCases(s, ch);
    RemoveKeepsBalance(s, ch);
    RemoveKeepsShape(s, ch);
  }

  lemma UnsubscribeKeepsInv(s: State, ch: Chan)
    requires Inv(s) && ch in s.live
    ensures Inv(Apply(s, Unsubscribe(ch)).value)
  {
    if ch in s.inbox {
      InboxDelete(s.inbox, ch);
      BalanceAfterInbox(Chans(s.sendCases), multiset(s.inbox), multiset(Delete(s.inbox, IndexOf(s.inbox, ch))),
                        s.live, s.removing, ch);
    } else {
      BalanceAfterUnsubscribe(Chans(s.sendCases), multiset(s.inbox), s.live, s.removing, ch);
    }
  }

  lemma SubscribeKeepsInv(s: State, ch: Chan)
    requires Inv(s)
    ensures Inv(Apply(s, Subscribe(ch)).value)
  {
    assert multiset(s.inbox + [ch]) == multiset(s.inbox) + multiset{ch};
    BalanceAfterSubscribe(Chans(s.sendCases), multiset(s.inbox), s.live, s.removing, ch);
  }

  lemma EndKeepsInv(s: State)
    requires Inv(s) && Enabled(s, EndSend)
    ensures Inv(Apply(s, EndSend).value)
  {
    ChansWithMessage(s.sendCases, None);
  }

  lemma TryKeepsInv(s: State, accepted: bool)
    requires Inv(s) && Enabled(s, TrySend(accepted))
    ensures var t := Apply(s, TrySend(accepted)); t.Some? && Inv(t.value)
  {
    if accepted {
      DeliverKeepsInv(s, s.phase.next, s.phase.next);
    }
  }

  lemma SelectKeepsInv(s: State, chosen: nat)
    requires Inv(s) && Enabled(s, SelectSend(chosen))
    ensures var t := Apply(s, SelectSend(chosen)); t.Some? && Inv(t.value)
  {
    DeliverKeepsInv(s, chosen, 1);
  }

  /** What every step of the protocol keeps; in particular none of them panics. */
  lemma StepKeepsInv(s: State, a: Action)
    requires Inv(s) && Enabled(s, a)
    ensures Apply(s, a).Some? && Inv(Apply(s, a).value)
  {
    match a
    case Subscribe(ch) => SubscribeKeepsInv(s, ch);
    case Unsubscribe(ch) => UnsubscribeKeepsInv(s, ch);
    case RemoveIdle(ch) => RemoveIdleKeepsInv(s, ch);
    case BeginSend(message) => BeginKeepsInv(s, message);
    case TrySend(accepted) => TryKeepsInv(s, accepted);
    case SelectSend(chosen) => SelectKeepsInv(s, chosen);
    case SelectRemove(ch) => RemoveKeepsInv(s, ch);
    case EndSend => EndKeepsInv(s);
  }

  // ----- Runs

  /** Every action is enabled when its turn comes. */
  ghost predicate Possible(s: State, actions: seq<Action>)
    requires Inv(s)
    decreases |actions|
  {
    actions == [] ||
    (Enabled(s, actions[0]) && (StepKeepsInv(s, actions[0]); Possible(Apply(s, actions[0]).value, actions[1..])))
  }

  /** The state after an interleaving; the invariant holds in every one that can be reached. */
  ghost function Run(s: State, actions: seq<Action>): (t: State)
    requires Inv(s) && Possible(s, actions)
    ensures Inv(t)
    decreases |actions|
  {
    if actions == [] then s
    else
      StepKeepsInv(s, actions[0]);
      Run(Apply(s, actions[0]).value, actions[1..])
  }

  lemma InitialInv()
    ensures Inv(INITIAL)
  {
    ChansOne(RemoveCase);
  }

  /** How often an action occurs. */
  function Count(actions: seq<Action>, a: Action): nat
  {
    if actions == [] then 0 else (if actions[0] == a then 1 else 0) + Count(actions[1..], a)
  }

  lemma {:induction false} CountIsMultiplicity(actions: seq<Action>, a: Action)
    ensures Count(actions, a) == multiset(actions)[a]
  {
    if actions != [] {
      CountIsMultiplicity(actions[1..], a);
      assert actions == [actions[0]] + actions[1..];
    }
  }

  /** One step in the books: subscriptions and unsubscriptions of a channel, and its removals that are past
      the inbox, which a removal from the send cases settles. */
  lemma StepIsBooked(s: State, a: Action, ch: Chan)
    requires Enabled(s, a) && Apply(s, a).Some?
    ensures Apply(s, a).value.live[ch] + (if a == Unsubscribe(ch) then 1 else 0)
         == s.live[ch] + (if a == Subscribe(ch) then 1 else 0)
    ensures Apply(s, a).value.removing[ch] + (if a == RemoveIdle(ch) || a == SelectRemove(ch) then 1 else 0)
         == s.removing[ch] + (if a == Unsubscribe(ch) && ch !in s.inbox then 1 else 0)
  {
    if a.SelectRemove? || a.RemoveIdle? {
      RemovalIsBooked(s, a.ch, ch);
    }
  }

  lemma RemovalIsBooked(s: State, removed: Chan, ch: Chan)
    requires RemoveFound(s, removed).Some? && removed in s.removing
    ensures var t := RemoveFound(s, removed).value;
            && t.live == s.live && t.phase == s.phase
            && t.removing[ch] + (if removed == ch then 1 else 0) == s.removing[ch]
  {
  }

  /** How many unsubscriptions of a channel in a run find it past the inbox. */
  ghost function Deferred(s: State, actions: seq<Action>, ch: Chan): nat
    requires Inv(s) && Possible(s, actions)
    decreases |actions|
  {
    if actions == [] then 0
    else
      StepKeepsInv(s, actions[0]);
      (if actions[0] == Unsubscribe(ch) && ch !in s.inbox then 1 else 0)
      + Deferred(Apply(s, actions[0]).value, actions[1..], ch)
  }

  /** Over any interleaving every subscription is booked until it is unsubscribed, and every removal that
      is past the inbox until it is carried out. */
  lemma {:induction false} RunIsBooked(s: State, actions: seq<Action>, ch: Chan)
    requires Inv(s) && Possible(s, actions)
    ensures var t := Run(s, actions);
            && t.live[ch] + Count(actions, Unsubscribe(ch)) == s.live[ch] + Count(actions, Subscribe(ch))
            && t.removing[ch] + Count(actions, RemoveIdle(ch)) + Count(actions, SelectRemove(ch))
               == s.removing[ch] + Deferred(s, actions, ch)
    decreases |actions|
  {
    if actions != [] {
      StepKeepsInv(s, actions[0]);
      StepIsBooked(s, actions[0], ch);
      RunIsBooked(Apply(s, actions[0]).value, actions[1..], ch);
    }
  }

  lemma InOnePlace(s: State, ch: Chan)
    requires Inv(s)
    ensures Chans(s.sendCases)[ch] + multiset(s.inbox)[ch] == s.live[ch] + s.removing[ch]
  {
    assert (Chans(s.sendCases) + multiset(s.inbox))[ch] == (s.live + s.removing)[ch];
  }

  /** After any interleaving from a new feed, each subscription that was made and not taken back is in
      exactly one of the two lists, and besides those only the ones whose removal is still to be carried out. */
  lemma SubscriptionInOnePlace(actions: seq<Action>, ch: Chan)
    requires (InitialInv(); Possible(INITIAL, actions))
    ensures var s := (InitialInv(); Run(INITIAL, actions));
            && Chans(s.sendCases)[ch] + multiset(s.inbox)[ch] + Count(actions, Unsubscribe(ch))
               == Count(actions, Subscribe(ch)) + s.removing[ch]
            && s.removing[ch] + Count(actions, RemoveIdle(ch)) + Count(actions, SelectRemove(ch))
               == Deferred(INITIAL, actions, ch)
  {
    InitialInv();
    RunIsBooked(INITIAL, actions, ch);
    InOnePlace(Run(INITIAL, actions), ch);
  }

  /** How often a running send took a removal of the channel. */
  function Removals(actions: seq<Action>, ch: Chan): nat
  {
    Count(actions, SelectRemove(ch))
  }

  lemma SendingStep(s: State, a: Action, ch: Chan)
    requires Enabled(s, a) && s.phase.Sending? && !a.EndSend? && Apply(s, a).Some?
    ensures var t := Apply(s, a).value;
            && t.phase.Sending? && t.phase.message == s.phase.message && t.start == s.start && t.held == s.held
            && t.lost[ch] <= s.lost[ch] + (if a == SelectRemove(ch) then 1 else 0)
  {
  }

  /** Until it ends, a send keeps its message and the channels it held, and loses channels only to
      removals. */
  lemma {:induction false} DuringSend(s: State, actions: seq<Action>, ch: Chan)
    requires Inv(s) && Possible(s, actions) && s.phase.Sending? && EndSend !in actions
    ensures var t := Run(s, actions);
            && t.phase.Sending? && t.phase.message == s.phase.message && t.start == s.start && t.held == s.held
            && t.lost[ch] <= s.lost[ch] + Removals(actions, ch)
    decreases |actions|
  {
    if actions != [] {
      assert actions[0] in actions;
      StepKeepsInv(s, actions[0]);
      SendingStep(s, actions[0], ch);
      DuringSend(Apply(s, actions[0]).value, actions[1..], ch);
    }
  }

  /** What a send that began in `s` and is about to end in `t` has done for a channel, `removals`
      being how often it took a removal of that channel: everything it delivered is its message; it
      returns the number of its deliveries; the channel got no more messages than it had
      subscriptions when the send began, and exactly that many less those lost to removals. */
  ghost predicate Completed(s: State, t: State, message: Message, ch: Chan, removals: nat)
  {
    && t.phase.Sending? && t.start == |s.log| <= |t.log|
    && var sent := t.log[t.start..];
       var subscribed := (Chans(s.sendCases) + multiset(s.inbox))[ch];
       && (forall d :: d in sent ==> d.message == message)
       && t.phase.nsent == |sent|
       && Delivered(sent)[ch] <= subscribed <= Delivered(sent)[ch] + removals
  }

  lemma EndOfSend(s: State, t: State, message: Message, ch: Chan, removals: nat)
    requires Inv(t) && Enabled(t, EndSend)
    requires t.phase.message == message && t.start == |s.log|
    requires t.held[ch] == (Chans(s.sendCases) + multiset(s.inbox))[ch] && t.lost[ch] <= removals
    ensures Completed(s, t, message, ch, removals)
  {
    assert t.sendCases[..1] == [RemoveCase];
    ChansOne(RemoveCase);
    assert t.held[ch] == Chans(t.sendCases[..1])[ch] + Delivered(t.log[t.start..])[ch] + t.lost[ch];
  }

  lemma SendRun(b: State, actions: seq<Action>, s: State, message: Message, ch: Chan)
    requires Inv(b) && b.phase.Sending? && b.phase.message == message && b.start == |s.log|
    requires b.held[ch] == (Chans(s.sendCases) + multiset(s.inbox))[ch] && b.lost[ch] == 0
    requires Possible(b, actions) && EndSend !in actions && Enabled(Run(b, actions), EndSend)
    ensures Completed(s, Run(b, actions), message, ch, Removals(actions, ch))
  {
    DuringSend(b, actions, ch);
    EndOfSend(s, Run(b, actions), message, ch, Removals(actions, ch));
  }

  /** A whole send, whatever else happens between its steps. */
  lemma SendDeliversToAll(s: State, message: Message, actions: seq<Action>, ch: Chan)
    requires Inv(s) && Possible(s, [BeginSend(message)] + actions)
    requires EndSend !in actions && Enabled(Run(s, [BeginSend(message)] + actions), EndSend)
    ensures Completed(s, Run(s, [BeginSend(message)] + actions), message, ch, Removals(actions, ch))
  {
    assert ([BeginSend(message)] + actions)[1..] == actions;
    StepKeepsInv(s, BeginSend(message));
    BeginCases(s, message);
    SendRun(Apply(s, BeginSend(message)).value, actions, s, message, ch);
  }

  /** What a send delivers, counted from the beginning of the feed: to each channel the message once for
      every subscription made and not taken back before the send, and for removals still to be carried
      out, less at most the removals it takes itself; with none of either, exactly once for each. */
  lemma DeliveredPerSubscription(before: seq<Action>, message: Message, actions: seq<Action>, ch: Chan)
    requires (InitialInv(); Possible(INITIAL, before))
    requires (InitialInv(); Possible(Run(INITIAL, before), [BeginSend(message)] + actions)) && EndSend !in actions
    requires (InitialInv(); Enabled(Run(Run(INITIAL, before), [BeginSend(message)] + actions), EndSend))
    ensures var s := (InitialInv(); Run(INITIAL, before));
            var t := Run(s, [BeginSend(message)] + actions);
            var subscribed := Count(before, Subscribe(ch)) + s.removing[ch] - Count(before, Unsubscribe(ch));
            && |s.log| <= |t.log| && t.phase.Sending? && t.phase.nsent == |t.log| - |s.log|
            && var got := Delivered(t.log[|s.log|..])[ch];
               && got <= subscribed <= got + Removals(actions, ch)
               && (s.removing[ch] == 0 && Removals(actions, ch) == 0 ==>
                     got == Count(before, Subscribe(ch)) - Count(before, Unsubscribe(ch)))
  {
    InitialInv();
    var s := Run(INITIAL, before);
    SubscriptionInOnePlace(before, ch);
    SendDeliversToAll(s, message, actions, ch);
  }

  /** Every step of a send makes it shorter: a delivery or a removal shrinks `cases` and `sendCases`
      together, a refusal moves the pass on, and no one else's step makes it longer. After an accepted
      value the pass goes on at the same place, where another case is now; after a wait it starts over. */
  lemma SendProgress(s: State, a: Action)
    requires Shape(s) && Enabled(s, a) && s.phase.Sending? && !a.EndSend? && Apply(s, a).Some?
    ensures var t := Apply(s, a).value;
            var before, after := |s.sendCases| + s.phase.active, |t.sendCases| + t.phase.active;
            && (a.Subscribe? || a.Unsubscribe? ==> after == before && t.phase == s.phase)
            && (a.TrySend? && !a.accepted ==>
                 after == before && t.phase.active - t.phase.next < s.phase.active - s.phase.next)
            && ((a.TrySend? && a.accepted) || a.SelectSend? || a.SelectRemove? ==> after < before)
            && (a.TrySend? && a.accepted ==> t.phase.next == s.phase.next)
            && (a.SelectSend? || a.SelectRemove? ==> t.phase.next == 1)
  {
  }

  /** The steps of the running send itself. */
  function OwnSteps(actions: seq<Action>): nat
  {
    if actions == [] then 0
    else (if actions[0].Subscribe? || actions[0].Unsubscribe? then 0 else 1) + OwnSteps(actions[1..])
  }

  /** `a` times `k`. */
  function Area(a: nat, k: nat): nat
  {
    if a == 0 then 0 else Area(a - 1, k) + k
  }

  lemma {:induction false} AreaIsProduct(a: nat, k: nat)
    ensures Area(a, k) == a * k
  {
    if a > 0 {
      AreaIsProduct(a - 1, k);
      assert a * k == (a - 1) * k + k;
    }
  }

  lemma {:induction false} AreaGrows(a: nat, b: nat, k: nat)
    requires a < b
    ensures Area(a, k) + k <= Area(b, k)
  {
    if a < b - 1 {
      AreaGrows(a, b - 1, k);
    }
  }

  /** What is left to do, for a send that began with at most `n` cases: the cases to shrink, each with a
      whole pass, and the rest of the current pass. */
  function Left(s: State, n: nat): int
    requires s.phase.Sending?
  {
    Area(|s.sendCases| + s.phase.active, n + 1) + s.phase.active - s.phase.next
  }

  /** Every step of the send itself uses up some of it, and nobody else's step adds to it. */
  lemma LeftFalls(s: State, a: Action, n: nat)
    requires Shape(s) && Enabled(s, a) && s.phase.Sending? && !a.EndSend? && Apply(s, a).Some?
    requires |s.sendCases| <= n
    ensures var t := Apply(s, a).value;
            && t.phase.Sending? && |t.sendCases| <= n
            && Left(t, n) + (if a.Subscribe? || a.Unsubscribe? then 0 else 1) <= Left(s, n)
  {
    var t := Apply(s, a).value;
    SendProgress(s, a);
    var before, after := |s.sendCases| + s.phase.active, |t.sendCases| + t.phase.active;
    if after < before {
      AreaGrows(after, before, n + 1);
    }
  }

  lemma {:induction false} StepsAreBounded(s: State, actions: seq<Action>, n: nat, bound: int)
    requires Inv(s) && Possible(s, actions) && s.phase.Sending? && EndSend !in actions
    requires |s.sendCases| <= n && Left(s, n) <= bound
    ensures OwnSteps(actions) <= bound
    decreases |actions|
  {
    if actions != [] {
      var a := actions[0];
      assert a in actions;
      StepKeepsInv(s, a);
      LeftFalls(s, a, n);
      StepsAreBounded(Apply(s, a).value, actions[1..], n, bound - if a.Subscribe? || a.Unsubscribe? then 0 else 1);
    }
  }

  /** The number of steps that a send over `n` cases may take: 2n(n + 1) + n. */
  function StepBound(n: nat): nat
  {
    Area(2 * n, n + 1) + n
  }

  lemma StepBoundValue(n: nat)
    ensures StepBound(n) == 2 * n * (n + 1) + n
  {
    AreaIsProduct(2 * n, n + 1);
  }

  lemma LeftAtBegin(s: State, message: Message)
    requires Inv(s) && s.phase.Idle?
    ensures var b, n := Apply(s, BeginSend(message)).value, |s.sendCases| + |s.inbox|;
            b.phase.Sending? && |b.sendCases| <= n && Left(b, n) <= StepBound(n)
  {
  }

  lemma StepsAfterBegin(s: State, message: Message, actions: seq<Action>, b: State, n: nat, bound: int)
    requires Inv(s) && Possible(s, [BeginSend(message)] + actions) && EndSend !in actions
    requires Apply(s, BeginSend(message)) == Some(b)
    requires b.phase.Sending? && |b.sendCases| <= n && Left(b, n) <= bound
    ensures OwnSteps(actions) <= bound
  {
    assert ([BeginSend(message)] + actions)[1..] == actions;
    StepKeepsInv(s, BeginSend(message));
    StepsAreBounded(b, actions, n, bound);
  }

  /** Termination: over any interleaving, a send that begins with `n` cases takes at most 2n(n + 1) + n
      steps of its own, however many subscriptions and removals happen meanwhile. */
  lemma SendTerminates(s: State, message: Message, actions: seq<Action>)
    requires Inv(s) && Possible(s, [BeginSend(message)] + actions) && EndSend !in actions
    ensures OwnSteps(actions) <= StepBound(|s.sendCases| + |s.inbox|)
  {
    var n := |s.sendCases| + |s.inbox|;
    LeftAtBegin(s, message);
    StepsAfterBegin(s, message, actions, Apply(s, BeginSend(message)).value, n, StepBound(n));
  }

  /** Deadlock freedom: a send in progress can always try, deliver to the first case that is left, or
      end; it never waits for anything but a receiver or a removal. */
  lemma SendNeverStuck(s: State)
    requires Inv(s) && s.phase.Sending?
    ensures Enabled(s, TrySend(false)) || Enabled(s, SelectSend(1)) || Enabled(s, EndSend)
  {
  }

  // ----- The feed on its slices

  /** The feed object: `sendCases` is the prefix of length `size` of a backing array, and the local
      slice `cases` of a running `Send` aliases the prefix of length `phase.active` of the same
      array. Each method is one atomic step; that a removal finds its channel is `FoundInCases`. */
  class Feed {
    var backing: array<Case>
    var size: nat
    var inbox: seq<Chan>
    var phase: Phase
    ghost var state: State

    /** The slices are those of the abstract state, and have its shape. */
    ghost predicate Mirrors()
      reads this, backing
    {
      && size <= backing.Length
      && state.sendCases == backing[..size] && state.inbox == inbox && state.phase == phase
      && Shape(state)
    }

    ghost predicate Valid()
      reads this, backing
    {
      Mirrors() && Inv(state)
    }

    constructor ()
      ensures Valid() && state == INITIAL && fresh(backing)
    {
      backing := new Case[1] [RemoveCase];
      size, inbox, phase, state := 1, [], Idle, INITIAL;
      new;
      assert backing[..1] == [RemoveCase];
      InitialInv();
    }

    /** `caseList.find`. */
    method FindCase(ch: Chan) returns (index: int)
      requires size <= backing.Length
      ensures index == Find(backing[..size], ch)
    {
      for i := 0 to size
        invariant forall k :: 0 <= k < i ==> !Has(backing[k], ch)
      {
        if Has(backing[i], ch) {
          return i;
        }
      }
      return -1;
    }

    /** `caseList.delete`: shifts the tail down in place. */
    method DeleteCase(index: nat)
      requires index < size <= backing.Length
      modifies backing, this`size
      ensures size == old(size) - 1 && backing[..size] == Delete(old(backing[..size]), index)
    {
      ghost var was := backing[..size];
      ghost var left := Delete(was, index);
      var i := index;
      while i < size - 1
        invariant index <= i <= size - 1 && size == old(size)
        invariant forall k :: 0 <= k < i ==> backing[k] == left[k]
        invariant forall k :: i < k < size ==> backing[k] == was[k]
      {
        DeletedAt(was, index, i);
        backing[i] := backing[i + 1];
        i := i + 1;
      }
      size := size - 1;
    }

    /** `caseList.deactivate`: swaps the case to the end of the active prefix. */
    method Deactivate(index: nat, active: nat)
      requires index < active <= size <= backing.Length
      modifies backing
      ensures backing[..size] == Swap(old(backing[..size]), index, active - 1)
    {
      backing[index], backing[active - 1] := backing[active - 1], backing[index];
    }

    method Subscribe(ch: Chan)
      requires Valid()
      modifies this`inbox, this`state
      ensures Valid() && Some(state) == Apply(old(state), Action.Subscribe(ch))
    {
      inbox := inbox + [ch];
      StepKeepsInv(state, Action.Subscribe(ch));
      state := Apply(state, Action.Subscribe(ch)).value;
    }

    /** The first half of `remove`: true if the channel was still in the inbox. */
    method Unsubscribe(ch: Chan) returns (done: bool)
      requires Valid() && ch in state.live
      modifies this`inbox, this`state
      ensures Valid() && Some(state) == Apply(old(state), Action.Unsubscribe(ch))
      ensures done <==> old(state.removing) == state.removing
    {
      done := ch in inbox;
      if done {
        var index := IndexOf(inbox, ch);
        inbox := inbox[..index] + inbox[index + 1..];
      }
      StepKeepsInv(state, Action.Unsubscribe(ch));
      state := Apply(state, Action.Unsubscribe(ch)).value;
    }

    /** The second half of `remove` when no send is running. */
    method RemoveIdle(ch: Chan)
      requires Valid() && phase.Idle? && ch in state.removing
      modifies this, backing
      ensures Valid() && backing == old(backing) && Some(state) == Apply(old(state), Action.RemoveIdle(ch))
    {
      StepKeepsInv(state, Action.RemoveIdle(ch));
      FoundInCases(state, ch);
      RemoveIdleSlices(ch);
    }

    method RemoveIdleSlices(ch: Chan)
      requires Mirrors() && phase.Idle? && ch in state.removing && Find(state.sendCases, ch) >= 1
      modifies this, backing
      ensures Mirrors() && backing == old(backing) && Some(state) == Apply(old(state), Action.RemoveIdle(ch))
    {
      RemoveKeepsShape(state, ch);
      var index := FindCase(ch);
      DeleteCase(index);
      state := Apply(state, Action.RemoveIdle(ch)).value;
    }

    /** One turn of the non-blocking pass. */
    method TrySend(accepted: bool)
      requires Valid() && phase.Sending? && phase.next < phase.active
      modifies this, backing
      ensures Valid() && backing == old(backing) && Some(state) == Apply(old(state), Action.TrySend(accepted))
    {
      StepKeepsInv(state, Action.TrySend(accepted));
      TrySendSlices(accepted);
    }

    method TrySendSlices(accepted: bool)
      requires Mirrors() && phase.Sending? && phase.next < phase.active
      modifies this, backing
      ensures Mirrors() && backing == old(backing) && Some(state) == Apply(old(state), Action.TrySend(accepted))
    {
      if accepted {
        DeliverKeepsShape(state, phase.next, phase.next);
        Deactivate(phase.next, phase.active);
        phase := phase.(active := phase.active - 1, nsent := phase.nsent + 1);
      } else {
        phase := phase.(next := phase.next + 1);
      }
      state := Apply(state, Action.TrySend(accepted)).value;
    }

    /** The blocking select chose a subscriber. */
    method SelectSend(chosen: nat)
      requires Valid() && PassOver(phase) && 1 <= chosen < phase.active
      modifies this, backing
      ensures Valid() && backing == old(backing) && Some(state) == Apply(old(state), Action.SelectSend(chosen))
    {
      StepKeepsInv(state, Action.SelectSend(chosen));
      SelectSendSlices(chosen);
    }

    method SelectSendSlices(chosen: nat)
      requires Mirrors() && PassOver(phase) && 1 <= chosen < phase.active
      modifies this, backing
      ensures Mirrors() && backing == old(backing) && Some(state) == Apply(old(state), Action.SelectSend(chosen))
    {
      DeliverKeepsShape(state, chosen, 1);
      Deactivate(chosen, phase.active);
      phase := phase.(active := phase.active - 1, nsent := phase.nsent + 1, next := 1);
      state := Apply(state, Action.SelectSend(chosen)).value;
    }

    /** The blocking select received a removal. */
    method SelectRemove(ch: Chan)
      requires Valid() && PassOver(phase) && phase.active > 1 && ch in state.removing
      modifies this, backing
      ensures Valid() && backing == old(backing) && Some(state) == Apply(old(state), Action.SelectRemove(ch))
    {
      StepKeepsInv(state, Action.SelectRemove(ch));
      FoundInCases(state, ch);
      SelectRemoveSlices(ch);
    }

    method SelectRemoveSlices(ch: Chan)
      requires Mirrors() && PassOver(phase) && phase.active > 1 && ch in state.removing
               && Find(state.sendCases, ch) >= 1
      modifies this, backing
      ensures Mirrors() && backing == old(backing) && Some(state) == Apply(old(state), Action.SelectRemove(ch))
    {
      RemoveKeepsShape(state, ch);
      var index := FindCase(ch);
      DeleteCase(index);
      if index < phase.active {
        phase := phase.(active := phase.active - 1);
      }
      phase := phase.(next := 1);
      state := Apply(state, Action.SelectRemove(ch)).value;
    }

    /** Sets or clears the message of every case but the first. */
    method SetMessage(message: Option<Message>)
      requires 1 <= size <= backing.Length && backing[0].RemoveCase?
      requires forall k :: 1 <= k < size ==> backing[k].SendCase?
      modifies backing
      ensures backing[..size] == WithMessage(old(backing[..size]), message)
    {
      for i := 1 to size
        invariant backing[0] == old(backing[0])
        invariant forall k :: 1 <= k < i ==> backing[k] == SendCase(old(backing[k].ch), message)
        invariant forall k :: i <= k < size ==> backing[k] == old(backing[k])
      {
        backing[i] := SendCase(backing[i].ch, message);
      }
    }

    /** A backing array with room for `total` cases that starts with the current ones. */
    method Grown(total: nat) returns (buffer: array<Case>)
      requires size <= backing.Length && size <= total
      ensures buffer.Length >= total && (buffer == backing || fresh(buffer))
      ensures buffer[..size] == backing[..size]
    {
      if total <= backing.Length {
        return backing;
      }
      buffer := new Case[2 * total];
      for i := 0 to size
        invariant forall k :: 0 <= k < i ==> buffer[k] == backing[k]
      {
        buffer[i] := backing[i];
      }
    }

    /** Writes the inbox behind the first `start` cases of a buffer. */
    method WriteInbox(buffer: array<Case>, start: nat)
      requires start + |inbox| <= buffer.Length
      modifies buffer
      ensures buffer[..start + |inbox|] == old(buffer[..start]) + FromInbox(inbox)
    {
      for i := 0 to |inbox|
        invariant buffer[..start] == old(buffer[..start])
        invariant forall k :: 0 <= k < i ==> buffer[start + k] == SendCase(inbox[k], None)
      {
        buffer[start + i] := SendCase(inbox[i], None);
      }
    }

    /** `append(f.sendCases, f.inbox...)`: in place if the backing array has room. */
    method AppendInbox()
      requires size <= backing.Length
      modifies this`backing, this`size, backing
      ensures size <= backing.Length && (backing == old(backing) || fresh(backing))
      ensures backing[..size] == old(backing[..size]) + FromInbox(inbox)
    {
      var buffer := Grown(size + |inbox|);
      WriteInbox(buffer, size);
      backing, size := buffer, size + |inbox|;
    }

    /** Takes the send lock, moves the inbox over and sets the message on all cases. */
    method BeginSend(message: Message)
      requires Valid() && phase.Idle?
      modifies this, backing
      ensures Valid() && (backing == old(backing) || fresh(backing))
      ensures Some(state) == Apply(old(state), Action.BeginSend(message))
    {
      StepKeepsInv(state, Action.BeginSend(message));
      BeginSendSlices(message);
    }

    method BeginSendSlices(message: Message)
      requires Mirrors() && phase.Idle?
      modifies this, backing
      ensures Mirrors() && (backing == old(backing) || fresh(backing))
      ensures Some(state) == Apply(old(state), Action.BeginSend(message))
    {
      ghost var cases := backing[..size] + FromInbox(inbox);
      AppendInbox();
      inbox := [];
      assert backing[0] == cases[0] && forall k :: 1 <= k < size ==> backing[k] == cases[k];
      SetMessage(Some(message));
      phase := Sending(message, size, 1, 0);
      state := Apply(state, Action.BeginSend(message)).value;
    }

    /** Only the remove case is left: forgets the message and hands off the send lock. */
    method EndSend() returns (nsent: nat)
      requires Valid() && PassOver(phase) && phase.active == 1
      modifies this, backing
      ensures Valid() && backing == old(backing) && Some(state) == Apply(old(state), Action.EndSend)
      ensures nsent == old(phase.nsent)
    {
      nsent := phase.nsent;
      SetMessage(None);
      phase := Idle;
      StepKeepsInv(state, Action.EndSend);
      state := Apply(state, Action.EndSend).value;
    }
  }
}
