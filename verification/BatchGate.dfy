/** The JSON-RPC batch gate (evmrpc/sei_legacy_http.go): a batch is filtered, its request ids are
    replaced by synthetic ones, the rest is forwarded, and the replies are merged back in slot order. */
module BatchGate {
  import opened Wrappers

  /** The raw text of an id; empty when the member is missing. */
  type Id = string

  const NULL_ID: Id := "null"
  const INVALID_REQUEST := -32600
  const INTERNAL_ERROR := -32603

  /** A batch element: text that does not unmarshal into a request, as a number or an object whose
      method is no string; the literal null, which unmarshals and sets nothing; or an object with an id,
      a method and the rest. */
  datatype Msg = Malformed | Null | Msg(id: Id, name: string, rest: string)

  /** The id and the method that unmarshalling an element leaves behind. */
  function RawId(m: Msg): Id {
    if m.Msg? then m.id else ""
  }

  function Method(m: Msg): string {
    if m.Msg? then m.name else ""
  }

  /** An element of the inner server's reply array: no object, or an object that may carry an id. */
  datatype Reply = NotReply | Reply(id: Option<Id>, payload: string)

  datatype Answer =
    | ErrorAnswer(id: Id, code: int)
    | BlockedAnswer(id: Id, error: string)
    | Passed(reply: Reply)

  /** Which methods the gate refuses, and which it forwards with a deprecation header. */
  datatype Gate = Gate(refuse: string -> Option<string>, legacy: string -> bool)

  predicate IsNotification(id: Id) {
    |id| == 0
  }

  predicate HasValidId(id: Id) {
    |id| > 0 && id[0] != '{' && id[0] != '['
  }

  function OrNull(id: Id): Id {
    if |id| == 0 then NULL_ID else id
  }

  // ---------------------------------------------------------------- synthetic ids

  function Decimal(n: nat): (s: string)
    ensures |s| > 0 && HasValidId(s)
  {
    var digit := ['0' + (n % 10) as char];
    if n < 10 then digit else Decimal(n / 10) + digit
  }

  function Value(s: string): int {
    if s == [] then 0 else 10 * Value(s[..|s| - 1]) + (s[|s| - 1] as int - '0' as int)
  }

  lemma {:induction false} DecimalRoundTrip(n: nat)
    ensures Value(Decimal(n)) == n
  {
    var s := Decimal(n);
    if n < 10 {
      assert s[..|s| - 1] == [];
    } else {
      DecimalRoundTrip(n / 10);
      assert s[..|s| - 1] == Decimal(n / 10);
    }
  }

  lemma DecimalIsInjective(m: nat, n: nat)
    ensures Decimal(m) == Decimal(n) ==> m == n
  {
    DecimalRoundTrip(m);
    DecimalRoundTrip(n);
  }

  // ---------------------------------------------------------------- what a slot is

  /** A slot the gate marks invalid: it does not unmarshal, or its id is an object or an array. */
  predicate Invalid(m: Msg) {
    m.Malformed? || (!IsNotification(RawId(m)) && !HasValidId(RawId(m)))
  }

  predicate Blocked(g: Gate, m: Msg) {
    !Invalid(m) && g.refuse(Method(m)).Some?
  }

  predicate Forwarded(g: Gate, m: Msg) {
    !Invalid(m) && !Blocked(g, m)
  }

  /** A slot that needs a reply from the inner server. */
  predicate Awaits(g: Gate, m: Msg) {
    Forwarded(g, m) && !IsNotification(RawId(m))
  }

  /** How many earlier slots await a reply: the number behind a slot's synthetic id. */
  function Rank(g: Gate, msgs: seq<Msg>, i: nat): nat
    requires i <= |msgs|
  {
    if i == 0 then 0 else Rank(g, msgs, i - 1) + if Awaits(g, msgs[i - 1]) then 1 else 0
  }

  function SyntheticId(g: Gate, msgs: seq<Msg>, i: nat): Id
    requires i < |msgs|
  {
    if Awaits(g, msgs[i]) then Decimal(Rank(g, msgs, i)) else ""
  }

  /** The forwarded batch. */
  function ForwardList(g: Gate, msgs: seq<Msg>, n: nat): seq<Msg>
    requires n <= |msgs|
  {
    if n == 0 then []
    else
      var m := msgs[n - 1];
      ForwardList(g, msgs, n - 1) +
      if !Forwarded(g, m) then [] else if IsNotification(RawId(m)) then [m] else [m.(id := SyntheticId(g, msgs, n - 1))]
  }

  lemma {:induction false} RankGrows(g: Gate, msgs: seq<Msg>, i: nat, j: nat)
    requires i < j <= |msgs| && Awaits(g, msgs[i])
    ensures Rank(g, msgs, i) < Rank(g, msgs, j)
  {
    if i < j - 1 {
      RankGrows(g, msgs, i, j - 1);
    }
  }

  /** No two slots share a synthetic id, whatever ids the client used. */
  lemma SyntheticIdsDiffer(g: Gate, msgs: seq<Msg>, i: nat, j: nat)
    requires i < j < |msgs| && Awaits(g, msgs[i]) && Awaits(g, msgs[j])
    ensures SyntheticId(g, msgs, i) != SyntheticId(g, msgs, j)
  {
    RankGrows(g, msgs, i, j);
    DecimalIsInjective(Rank(g, msgs, i), Rank(g, msgs, j));
  }

  // ---------------------------------------------------------------- what the answer must be

  /** The index of the first reply that carries the id. */
  function FirstReply(replies: seq<Reply>, id: Id, n: nat): (r: Option<nat>)
    requires n <= |replies|
    ensures r.Some? ==> r.value < n && replies[r.value].Reply? && replies[r.value].id == Some(id)
    ensures r.Some? ==> forall j :: 0 <= j < r.value && replies[j].Reply? ==> replies[j].id != Some(id)
    ensures r.None? ==> forall j :: 0 <= j < n && replies[j].Reply? ==> replies[j].id != Some(id)
  {
    if n == 0 then None
    else
      var r := FirstReply(replies, id, n - 1);
      if r.Some? then r
      else if replies[n - 1].Reply? && replies[n - 1].id == Some(id) then Some(n - 1)
      else None
  }

  /** The answers a slot adds to the batch response: none for a notification. */
  function SlotAnswer(g: Gate, msgs: seq<Msg>, i: nat, replies: Option<seq<Reply>>): seq<Answer>
    requires i < |msgs|
  {
    var m := msgs[i];
    if Invalid(m) then [ErrorAnswer(NULL_ID, INVALID_REQUEST)]
    else if IsNotification(RawId(m)) then []
    else if Blocked(g, m) then [BlockedAnswer(m.id, g.refuse(m.name).value)]
    else if replies.None? then [ErrorAnswer(m.id, INTERNAL_ERROR)]
    else
      match FirstReply(replies.value, SyntheticId(g, msgs, i), |replies.value|)
      case None => [ErrorAnswer(m.id, INTERNAL_ERROR)]
      case Some(j) => [Passed(Reply(Some(m.id), replies.value[j].payload))]
  }

  function Answers(g: Gate, msgs: seq<Msg>, n: nat, replies: Option<seq<Reply>>): seq<Answer>
    requires n <= |msgs|
  {
    if n == 0 then [] else Answers(g, msgs, n - 1, replies) + SlotAnswer(g, msgs, n - 1, replies)
  }

  function IdOf(a: Answer): Id {
    match a
    case ErrorAnswer(id, _) => id
    case BlockedAnswer(id, _) => id
    case Passed(reply) => if reply.Reply? && reply.id.Some? then reply.id.value else ""
  }

  function IdsOf(answers: seq<Answer>): seq<Id> {
    seq(|answers|, i requires 0 <= i < |answers| => IdOf(answers[i]))
  }

  /** The ids a batch is answered with: null for an invalid slot, the client's own id for a request,
      nothing for a notification. */
  function ExpectedIds(msgs: seq<Msg>, n: nat): seq<Id>
    requires n <= |msgs|
  {
    if n == 0 then []
    else
      var m := msgs[n - 1];
      ExpectedIds(msgs, n - 1) + if Invalid(m) then [NULL_ID] else if IsNotification(RawId(m)) then [] else [m.id]
  }

  lemma SlotKeepsId(g: Gate, msgs: seq<Msg>, i: nat, replies: Option<seq<Reply>>)
    requires i < |msgs|
    ensures var m := msgs[i];
            IdsOf(SlotAnswer(g, msgs, i, replies)) ==
            if Invalid(m) then [NULL_ID] else if IsNotification(RawId(m)) then [] else [m.id]
  {
  }

  lemma IdsOfAppend(a: seq<Answer>, b: seq<Answer>)
    ensures IdsOf(a + b) == IdsOf(a) + IdsOf(b)
  {
  }

  /** Every invalid or id-carrying slot is answered once, in order and under its own id, whatever
      the inner server replied. */
  lemma {:induction false} AnswersKeepSlots(g: Gate, msgs: seq<Msg>, n: nat, replies: Option<seq<Reply>>)
    requires n <= |msgs|
    ensures IdsOf(Answers(g, msgs, n, replies)) == ExpectedIds(msgs, n)
  {
    hide SlotAnswer, IdOf;
    if n > 0 {
      hide IdsOf, Invalid, IsNotification, RawId;
      AnswersKeepSlots(g, msgs, n - 1, replies);
      SlotKeepsId(g, msgs, n - 1, replies);
      IdsOfAppend(Answers(g, msgs, n - 1, replies), SlotAnswer(g, msgs, n - 1, replies));
    } else {
      assert IdsOf([]) == [];
    }
  }

  // ---------------------------------------------------------------- what the answer should be

  /** A slot that is no request: no object that unmarshals, or an object with an invalid id. */
  predicate NoRequest(m: Msg) {
    !m.Msg? || Invalid(m)
  }

  /** The ids a batch should be answered with: null for every slot that is no request. */
  function RequiredIds(msgs: seq<Msg>, n: nat): seq<Id>
    requires n <= |msgs|
  {
    if n == 0 then []
    else
      var m := msgs[n - 1];
      RequiredIds(msgs, n - 1) + if NoRequest(m) then [NULL_ID] else if IsNotification(m.id) then [] else [m.id]
  }

  function Nulls(msgs: seq<Msg>, n: nat): nat
    requires n <= |msgs|
  {
    if n == 0 then 0 else Nulls(msgs, n - 1) + if msgs[n - 1].Null? then 1 else 0
  }

  /** Each null slot goes unanswered, so every slot that is no request is answered exactly when none is
      null. */
  lemma {:induction false} AnsweredUnlessNull(msgs: seq<Msg>, n: nat)
    requires n <= |msgs|
    ensures |RequiredIds(msgs, n)| == |ExpectedIds(msgs, n)| + Nulls(msgs, n)
    ensures Nulls(msgs, n) == 0 <==> forall i :: 0 <= i < n ==> !msgs[i].Null?
    ensures RequiredIds(msgs, n) == ExpectedIds(msgs, n) <==> forall i :: 0 <= i < n ==> !msgs[i].Null?
  {
    if n > 0 {
      AnsweredUnlessNull(msgs, n - 1);
    }
  }

  /** A null beside a forwarded legacy request: the batch is not passed through, and only the request
      is answered. */
  lemma NullUnanswered(g: Gate, m: Msg, replies: Option<seq<Reply>>)
    requires m.Msg? && HasValidId(m.id) && g.refuse(m.name).None? && g.legacy(m.name) && g.refuse("").None?
    ensures ForwardList(g, [Null, m], 2) == [Null, m.(id := Decimal(0))]
    ensures IdsOf(Answers(g, [Null, m], 2, replies)) == [m.id] && RequiredIds([Null, m], 2) == [NULL_ID, m.id]
  {
    var msgs := [Null, m];
    AnswersKeepSlots(g, msgs, 2, replies);
    hide Answers, IdsOf;
    assert Rank(g, msgs, 1) == 0;
    assert ForwardList(g, msgs, 1) == [Null];
    assert ExpectedIds(msgs, 1) == [] && RequiredIds(msgs, 1) == [NULL_ID];
  }

  // ---------------------------------------------------------------- own replies

  /** The inner server answered each synthetic id exactly once, in any order. */
  ghost predicate EchoesOnce(g: Gate, msgs: seq<Msg>, replies: seq<Reply>, place: seq<nat>) {
    && |place| == |msgs|
    && forall i :: 0 <= i < |msgs| && Awaits(g, msgs[i]) ==>
         && place[i] < |replies| && replies[place[i]].Reply? && replies[place[i]].id == Some(SyntheticId(g, msgs, i))
         && forall j :: 0 <= j < |replies| && replies[j].Reply? ==>
              (replies[j].id == Some(SyntheticId(g, msgs, i)) ==> j == place[i])
  }

  /** Then each forwarded request gets its own reply under its own id. */
  lemma OwnReply(g: Gate, msgs: seq<Msg>, replies: seq<Reply>, place: seq<nat>, i: nat)
    requires EchoesOnce(g, msgs, replies, place) && i < |msgs| && Awaits(g, msgs[i])
    ensures SlotAnswer(g, msgs, i, Some(replies)) == [Passed(Reply(Some(msgs[i].id), replies[place[i]].payload))]
  {
  }

  /** The ideal response: own replies for the requests that were forwarded, and the gate's own
      answers for the others. */
  ghost function OwnAnswers(g: Gate, msgs: seq<Msg>, n: nat, replies: seq<Reply>, place: seq<nat>): seq<Answer>
    requires EchoesOnce(g, msgs, replies, place) && n <= |msgs|
  {
    if n == 0 then []
    else
      var m := msgs[n - 1];
      OwnAnswers(g, msgs, n - 1, replies, place) +
      if Invalid(m) then [ErrorAnswer(NULL_ID, INVALID_REQUEST)]
      else if IsNotification(RawId(m)) then []
      else if Blocked(g, m) then [BlockedAnswer(m.id, g.refuse(m.name).value)]
      else [Passed(Reply(Some(m.id), replies[place[n - 1]].payload))]
  }

  lemma {:induction false} AnswersAreOwn(g: Gate, msgs: seq<Msg>, n: nat, replies: seq<Reply>, place: seq<nat>)
    requires EchoesOnce(g, msgs, replies, place) && n <= |msgs|
    ensures Answers(g, msgs, n, Some(replies)) == OwnAnswers(g, msgs, n, replies, place)
  {
    if n > 0 {
      AnswersAreOwn(g, msgs, n - 1, replies, place);
      if Awaits(g, msgs[n - 1]) {
        OwnReply(g, msgs, replies, place, n - 1);
      }
    }
  }

  // ---------------------------------------------------------------- the handler

  /** The parallel arrays of handleBatch. */
  datatype Slots = Slots(ids: seq<Id>, names: seq<string>, invalid: seq<bool>, blocked: seq<bool>, errors: seq<string>)

  ghost predicate Describes(g: Gate, msgs: seq<Msg>, n: nat, s: Slots) {
    && |s.ids| == |s.names| == |s.invalid| == |s.blocked| == |s.errors| == n <= |msgs|
    && forall i :: 0 <= i < n ==>
         && s.invalid[i] == Invalid(msgs[i]) && s.blocked[i] == Blocked(g, msgs[i])
         && s.ids[i] == (if Invalid(msgs[i]) then "" else RawId(msgs[i]))
         && (!Invalid(msgs[i]) ==> s.names[i] == Method(msgs[i]))
         && (Blocked(g, msgs[i]) ==> s.errors[i] == g.refuse(Method(msgs[i])).value)
  }

  method Classify(g: Gate, msgs: seq<Msg>) returns (s: Slots)
    ensures Describes(g, msgs, |msgs|, s)
  {
    s := Slots([], [], [], [], []);
    for i := 0 to |msgs|
      invariant Describes(g, msgs, i, s)
    {
      var m := msgs[i];
      if m.Malformed? || (!IsNotification(RawId(m)) && !HasValidId(RawId(m))) {
        s := Slots(s.ids + [""], s.names + [""], s.invalid + [true], s.blocked + [false], s.errors + [""]);
        continue;
      }
      var refused := g.refuse(Method(m));
      s := Slots(s.ids + [RawId(m)], s.names + [Method(m)], s.invalid + [false], s.blocked + [refused.Some?],
                 s.errors + [if refused.Some? then refused.value else ""]);
    }
  }

  ghost predicate Numbered(g: Gate, msgs: seq<Msg>, n: nat, synth: seq<Id>) {
    |synth| == n <= |msgs| && forall i :: 0 <= i < n ==> synth[i] == SyntheticId(g, msgs, i)
  }

  /** What the arrays say about one slot. */
  lemma DescribesSlot(g: Gate, msgs: seq<Msg>, s: Slots, i: nat)
    requires Describes(g, msgs, |msgs|, s) && i < |msgs|
    ensures |s.ids| == |s.names| == |s.invalid| == |s.blocked| == |msgs|
    ensures s.invalid[i] || s.blocked[i] <==> !Forwarded(g, msgs[i])
    ensures Forwarded(g, msgs[i]) ==> s.ids[i] == RawId(msgs[i]) && s.names[i] == Method(msgs[i])
  {
  }

  lemma RenameStep(g: Gate, msgs: seq<Msg>, i: nat, synth: seq<Id>)
    requires i < |msgs| && Numbered(g, msgs, i, synth)
    ensures Rank(g, msgs, i + 1) == Rank(g, msgs, i) + if Awaits(g, msgs[i]) then 1 else 0
    ensures ForwardList(g, msgs, i + 1) ==
            ForwardList(g, msgs, i) +
            if !Forwarded(g, msgs[i]) then []
            else if IsNotification(RawId(msgs[i])) then [msgs[i]]
            else [msgs[i].(id := SyntheticId(g, msgs, i))]
    ensures Numbered(g, msgs, i + 1, synth + [SyntheticId(g, msgs, i)])
  {
    hide Forwarded;
  }

  method Rename(g: Gate, msgs: seq<Msg>, s: Slots) returns (forward: seq<Msg>, synth: seq<Id>, legacy: bool)
    requires Describes(g, msgs, |msgs|, s)
    ensures forward == ForwardList(g, msgs, |msgs|) && Numbered(g, msgs, |msgs|, synth)
    ensures legacy <==> exists i :: 0 <= i < |msgs| && Forwarded(g, msgs[i]) && g.legacy(Method(msgs[i]))
  {
    forward, synth, legacy := [], [], false;
    var counter := 0;
    for i := 0 to |msgs|
      invariant counter == Rank(g, msgs, i) && forward == ForwardList(g, msgs, i) && Numbered(g, msgs, i, synth)
      invariant legacy <==> exists k :: 0 <= k < i && Forwarded(g, msgs[k]) && g.legacy(Method(msgs[k]))
    {
      hide Describes, Forwarded, Rank, ForwardList, Numbered, Decimal;
      DescribesSlot(g, msgs, s, i);
      RenameStep(g, msgs, i, synth);
      if s.invalid[i] || s.blocked[i] {
        synth := synth + [""];
        continue;
      }
      var msg := msgs[i];
      if !IsNotification(s.ids[i]) {
        var sid := Decimal(counter);
        synth := synth + [sid];
        counter := counter + 1;
        msg := msg.(id := sid);
      } else {
        synth := synth + [""];
      }
      forward := forward + [msg];
      if !legacy && g.legacy(s.names[i]) {
        legacy := true;
      }
    }
  }

  /** seiLegacyBatchResponsesNoForward. */
  method AnswerWithoutForward(g: Gate, msgs: seq<Msg>, s: Slots) returns (out: seq<Answer>)
    requires Describes(g, msgs, |msgs|, s) && forall m :: m in msgs ==> !Forwarded(g, m)
    ensures out == Answers(g, msgs, |msgs|, None)
  {
    out := [];
    for i := 0 to |msgs|
      invariant out == Answers(g, msgs, i, None)
    {
      assert !Forwarded(g, msgs[i]);
      if s.invalid[i] {
        out := out + [ErrorAnswer(OrNull(s.ids[i]), INVALID_REQUEST)];
        continue;
      }
      if IsNotification(s.ids[i]) {
        continue;
      }
      out := out + [BlockedAnswer(OrNull(s.ids[i]), s.errors[i])];
    }
  }

  /** The answers when the inner reply is not an array. */
  method AnswerMergeFailure(g: Gate, msgs: seq<Msg>, s: Slots) returns (out: seq<Answer>)
    requires Describes(g, msgs, |msgs|, s)
    ensures out == Answers(g, msgs, |msgs|, None)
  {
    out := [];
    for i := 0 to |msgs|
      invariant out == Answers(g, msgs, i, None)
    {
      if s.invalid[i] {
        out := out + [ErrorAnswer(OrNull(s.ids[i]), INVALID_REQUEST)];
      } else if IsNotification(s.ids[i]) {
        continue;
      } else if s.blocked[i] {
        out := out + [BlockedAnswer(OrNull(s.ids[i]), s.errors[i])];
      } else {
        out := out + [ErrorAnswer(OrNull(s.ids[i]), INTERNAL_ERROR)];
      }
    }
  }

  /** The index from reply id to the first reply that carries it. */
  ghost predicate Indexes(replies: seq<Reply>, n: nat, idToIdx: map<Id, nat>) {
    n <= |replies| && forall id :: id != "" ==>
      FirstReply(replies, id, n) == if id in idToIdx then Some(idToIdx[id]) else None
  }

  method IndexReplies(replies: seq<Reply>) returns (idToIdx: map<Id, nat>)
    ensures Indexes(replies, |replies|, idToIdx)
  {
    idToIdx := map[];
    for j := 0 to |replies|
      invariant Indexes(replies, j, idToIdx)
    {
      var raw := replies[j];
      if raw.NotReply? || raw.id.None? || IsNotification(raw.id.value) {
        continue;
      }
      if raw.id.value !in idToIdx {
        idToIdx := idToIdx[raw.id.value := j];
      }
    }
  }

  /** patchJSONRPCResponseIDIfNeeded. */
  function PatchId(reply: Reply, wanted: Id): (r: Reply)
    ensures reply.Reply? && reply.id.Some? && wanted != "" ==> r == Reply(Some(wanted), reply.payload)
  {
    if IsNotification(wanted) || reply.NotReply? || reply.id.None? || reply.id.value == wanted then reply
    else reply.(id := Some(wanted))
  }

  /** Replies already taken belong to earlier slots. */
  ghost predicate TakenBefore(g: Gate, msgs: seq<Msg>, n: nat, replies: seq<Reply>, used: seq<bool>) {
    && |used| == |replies| && n <= |msgs|
    && forall j :: 0 <= j < |replies| && used[j] ==>
         exists i :: 0 <= i < n && Awaits(g, msgs[i]) && replies[j].Reply? &&
           replies[j].id == Some(SyntheticId(g, msgs, i))
  }

  /** The first reply to a slot was not taken by an earlier one, so the guard on `used` never fires. */
  lemma NeverUsed(g: Gate, msgs: seq<Msg>, n: nat, replies: seq<Reply>, used: seq<bool>, j: nat)
    requires TakenBefore(g, msgs, n, replies, used) && n < |msgs| && Awaits(g, msgs[n])
    requires j < |replies| && replies[j].Reply? && replies[j].id == Some(SyntheticId(g, msgs, n))
    ensures !used[j]
  {
    if used[j] {
      var i :| 0 <= i < n && Awaits(g, msgs[i]) && replies[j].Reply? && replies[j].id == Some(SyntheticId(g, msgs, i));
      SyntheticIdsDiffer(g, msgs, i, n);
      assert false;
    }
  }

  /** mergeSeiLegacyHTTPBatch. */
  method Merge(g: Gate, msgs: seq<Msg>, s: Slots, synth: seq<Id>, inner: Option<seq<Reply>>) returns (out: seq<Answer>)
    requires Describes(g, msgs, |msgs|, s) && Numbered(g, msgs, |msgs|, synth)
    ensures out == Answers(g, msgs, |msgs|, inner)
  {
    if inner.None? {
      out := AnswerMergeFailure(g, msgs, s);
      return;
    }
    var replies := inner.value;
    var idToIdx := IndexReplies(replies);
    out := [];
    var used := seq(|replies|, _ => false);
    for i := 0 to |msgs|
      invariant out == Answers(g, msgs, i, inner)
      invariant TakenBefore(g, msgs, i, replies, used)
    {
      if s.invalid[i] {
        out := out + [ErrorAnswer(OrNull(s.ids[i]), INVALID_REQUEST)];
        continue;
      }
      if IsNotification(s.ids[i]) {
        continue;
      }
      if s.blocked[i] {
        out := out + [BlockedAnswer(OrNull(s.ids[i]), s.errors[i])];
        continue;
      }
      var k := synth[i];
      if k !in idToIdx || used[idToIdx[k]] {
        if k in idToIdx {
          NeverUsed(g, msgs, i, replies, used, idToIdx[k]);
        }
        out := out + [ErrorAnswer(OrNull(s.ids[i]), INTERNAL_ERROR)];
        continue;
      }
      used := used[idToIdx[k] := true];
      out := out + [Passed(PatchId(replies[idToIdx[k]], s.ids[i]))];
    }
  }

  datatype Response = PassedThrough | Answered(answers: seq<Answer>)

  /** handleBatch: the whole body goes through unchanged, or the batch is answered slot by slot.
      `inner` is the inner server's reply to the forwarded batch. */
  method HandleBatch(g: Gate, body: Option<seq<Msg>>, inner: seq<Msg> -> Option<seq<Reply>>) returns (r: Response)
    ensures r.PassedThrough? <==> body.None? || forall m :: m in body.value ==> Forwarded(g, m) && !g.legacy(Method(m))
    ensures r.Answered? ==>
              var msgs := body.value; var forward := ForwardList(g, msgs, |msgs|);
              && r.answers == Answers(g, msgs, |msgs|, if forward == [] then None else inner(forward))
              && IdsOf(r.answers) == ExpectedIds(msgs, |msgs|)
              && (IdsOf(r.answers) == RequiredIds(msgs, |msgs|) <==> Null !in msgs)
  {
    if body.None? || |body.value| == 0 {
      return PassedThrough;
    }
    var msgs := body.value;
    var s := Classify(g, msgs);
    var forward, synth, legacy := Rename(g, msgs, s);
    ForwardCount(g, msgs, |msgs|);
    AnsweredUnlessNull(msgs, |msgs|);
    if |forward| == 0 {
      var out := AnswerWithoutForward(g, msgs, s);
      AnswersKeepSlots(g, msgs, |msgs|, None);
      return Answered(out);
    }
    if |forward| == |msgs| && !legacy {
      return PassedThrough;
    }
    var out := Merge(g, msgs, s, synth, inner(forward));
    AnswersKeepSlots(g, msgs, |msgs|, inner(forward));
    return Answered(out);
  }

  lemma {:induction false} ForwardCount(g: Gate, msgs: seq<Msg>, n: nat)
    requires n <= |msgs|
    ensures |ForwardList(g, msgs, n)| <= n
    ensures |ForwardList(g, msgs, n)| == n <==> forall i :: 0 <= i < n ==> Forwarded(g, msgs[i])
    ensures |ForwardList(g, msgs, n)| == 0 <==> forall i :: 0 <= i < n ==> !Forwarded(g, msgs[i])
  {
    if n > 0 {
      ForwardCount(g, msgs, n - 1);
    }
  }
}
