/** The delivery handler (`webhook`, POST /webhook): walks a delivery
    batch and sends one reply per usable text message. */
module Webhook {

  import opened Maybe
  import opened Text
  import opened Router
  import opened Agents
  import opened Seqs

  /** One inbound message. `body` is `message["text"]["body"]`, `None` when
      either key is absent (Python then reads the empty string). */
  datatype Message = Message(sender: Option<string>, kind: Option<string>, body: Option<string>)

  /** A change's `value` object (an absent `value` is the empty object).
      `messages` is `None` when the key is absent. A `statuses` key is only
      logged, so it is not represented. */
  datatype ChangeValue = ChangeValue(messages: Option<seq<Message>>)

  datatype Change = Change(field: Option<string>, value: ChangeValue)

  /** An entry of the batch; `changes` is `None` when the key is absent. */
  datatype Entry = Entry(changes: Option<seq<Change>>)

  /** The JSON object of a delivery. `entry` is `None` when the key is
      absent; `otherKeys` counts the object's other keys, which are never
      read but make the object non-empty. */
  datatype Payload = Payload(entry: Option<seq<Entry>>, otherKeys: nat)

  /** One call of the send-message API: recipient and text. */
  datatype Send = Send(to: Option<string>, text: string)

  /** What the handler returns (HTTP status and the `status` field of its
      JSON body) together with the sends it made, in order. */
  datatype Delivery = Delivery(status: int, marker: string, sends: seq<Send>)

  /** The result of one send-message call, as an oracle: whether call number
      `k` with this content was accepted. The handler only logs it. */
  type Transport = (nat, Send) -> bool

  /** `not data` for a parsed JSON object: it has no key at all. */
  predicate IsEmptyObject(p: Payload) {
    p.entry.None? && p.otherKeys == 0
  }

  /** `text_data.get("body", "")`. */
  function BodyOf(m: Message): string {
    if m.body.Some? then m.body.value else ""
  }

  /** A message gets a reply: it is of type "text" and its body is not
      blank after `strip()`. */
  predicate Answerable(m: Message) {
    m.kind == Some("text") && !IsBlank(BodyOf(m))
  }

  /** The messages a change lists, when the change is a "messages" change
      whose value holds a `messages` key; no others are looked at. */
  function ChangeMessages(c: Change): seq<Message> {
    if c.field == Some("messages") && c.value.messages.Some? then c.value.messages.value else []
  }

  /** The messages of a sequence of changes, in order. */
  function ChangesMessages(cs: seq<Change>): seq<Message> {
    if cs == [] then [] else ChangesMessages(cs[..|cs| - 1]) + ChangeMessages(cs[|cs| - 1])
  }

  function EntryMessages(e: Entry): seq<Message> {
    if e.changes.Some? then ChangesMessages(e.changes.value) else []
  }

  /** The messages of a sequence of entries, in order. */
  function EntriesMessages(es: seq<Entry>): seq<Message> {
    if es == [] then [] else EntriesMessages(es[..|es| - 1]) + EntryMessages(es[|es| - 1])
  }

  /** Every message the handler looks at, in payload order. */
  function PayloadMessages(p: Payload): seq<Message> {
    if p.entry.Some? then EntriesMessages(p.entry.value) else []
  }

  /** The answerable messages of `ms`, in their order. */
  function Selected(ms: seq<Message>): seq<Message> {
    if ms == [] then []
    else Selected(ms[..|ms| - 1]) + (if Answerable(ms[|ms| - 1]) then [ms[|ms| - 1]] else [])
  }

  /** The send for the answerable message `m` when `k` generator calls came
      before it: routed by its body, answered by that agent, addressed to
      its sender. */
  function ReplyTo(m: Message, generate: Generator, k: nat): Send {
    var body := BodyOf(m);
    Send(m.sender, Process(Classify(body), body, generate, k))
  }

  /** How a message is answered, given how many replies came before it. */
  type Responder = (Message, nat) -> Send

  /** The handler's responder for a generator. */
  function Reply(generate: Generator): Responder {
    (m: Message, k: nat) => ReplyTo(m, generate, k)
  }

  /** The sends called for by the selected messages `selected` when `k`
      sends came before them: one per message, in order, the `j`-th made
      as reply number `k + j`. */
  function Replies(selected: seq<Message>, respond: Responder, k: nat): seq<Send> {
    if selected == [] then []
    else
      var n := |selected| - 1;
      Replies(selected[..n], respond, k) + [respond(selected[n], k + n)]
  }

  /** There are as many sends as selected messages, and the `j`-th send
      answers the `j`-th selected message as reply number `k + j`. */
  lemma {:induction false} RepliesSpec(selected: seq<Message>, respond: Responder, k: nat)
    ensures |Replies(selected, respond, k)| == |selected|
    ensures forall j :: 0 <= j < |selected| ==>
              Replies(selected, respond, k)[j] == respond(selected[j], k + j)
  {
    if selected != [] {
      var n := |selected| - 1;
      RepliesSpec(selected[..n], respond, k);
    }
  }

  /** One send per selected message. */
  lemma {:induction false} RepliesLength(selected: seq<Message>, respond: Responder, k: nat)
    ensures |Replies(selected, respond, k)| == |selected|
  {
    if selected != [] {
      RepliesLength(selected[..|selected| - 1], respond, k);
    }
  }

  lemma RepliesSnoc(selected: seq<Message>, m: Message, respond: Responder, k: nat)
    ensures Replies(selected + [m], respond, k)
            == Replies(selected, respond, k) + [respond(m, k + |selected|)]
  {
    assert (selected + [m])[..|selected|] == selected;
  }

  /** The sends for two batches one after the other are those for the
      first followed by those for the second, numbered on from the first. */
  lemma {:induction false} RepliesAppend(a: seq<Message>, b: seq<Message>, respond: Responder, k: nat)
    ensures Replies(a + b, respond, k) == Replies(a, respond, k) + Replies(b, respond, k + |a|)
    decreases |b|
  {
    if b == [] {
      AppendNil(a);
      AppendNil(Replies(a, respond, k));
    } else {
      var init := b[..|b| - 1];
      var last := b[|b| - 1];
      TakeSnoc(b, |b| - 1);
      assert b == init + [last];
      AppendAssoc(a, init, [last]);
      RepliesAppend(a, init, respond, k);
      RepliesSnoc(a + init, last, respond, k);
      RepliesSnoc(init, last, respond, k + |a|);
      AppendAssoc(Replies(a, respond, k), Replies(init, respond, k + |a|), [respond(last, k + |a| + |init|)]);
    }
  }

  lemma SelectedSnoc(ms: seq<Message>, m: Message)
    ensures Selected(ms + [m]) == Selected(ms) + (if Answerable(m) then [m] else [])
  {
    assert (ms + [m])[..|ms|] == ms;
  }

  /** A message is answered exactly when it is a text message whose body
      has a character that is not whitespace. */
  lemma AnswerableIff(m: Message)
    ensures Answerable(m) <==> m.kind == Some("text") && !AllSpace(BodyOf(m))
  {
    BlankIffAllSpace(BodyOf(m));
  }

  /** The selection keeps exactly the answerable messages and never adds
      any. */
  lemma {:induction false} SelectedMembers(ms: seq<Message>)
    ensures |Selected(ms)| <= |ms|
    ensures forall m :: m in Selected(ms) <==> m in ms && Answerable(m)
  {
    if ms != [] {
      var init := ms[..|ms| - 1];
      SelectedMembers(init);
      assert ms == init + [ms[|ms| - 1]];
    }
  }

  /** Selection distributes over concatenation, so the order of the payload
      is the order of the replies. */
  lemma {:induction false} SelectedAppend(a: seq<Message>, b: seq<Message>)
    ensures Selected(a + b) == Selected(a) + Selected(b)
    decreases |b|
  {
    if b == [] {
      AppendNil(a);
      AppendNil(Selected(a));
    } else {
      var init := b[..|b| - 1];
      var last := b[|b| - 1];
      TakeSnoc(b, |b| - 1);
      assert b == init + [last];
      AppendAssoc(a, init, [last]);
      SelectedAppend(a, init);
      SelectedSnoc(a + init, last);
      SelectedSnoc(init, last);
      AppendAssoc(Selected(a), Selected(init), if Answerable(last) then [last] else []);
    }
  }

  lemma ChangesMessagesSnoc(cs: seq<Change>, c: Change)
    ensures ChangesMessages(cs + [c]) == ChangesMessages(cs) + ChangeMessages(c)
  {
    assert (cs + [c])[..|cs|] == cs;
  }

  /** The messages of a sequence of changes are those of its parts. */
  lemma {:induction false} ChangesMessagesAppend(a: seq<Change>, b: seq<Change>)
    ensures ChangesMessages(a + b) == ChangesMessages(a) + ChangesMessages(b)
    decreases |b|
  {
    if b == [] {
      AppendNil(a);
      AppendNil(ChangesMessages(a));
    } else {
      var init := b[..|b| - 1];
      var last := b[|b| - 1];
      TakeSnoc(b, |b| - 1);
      assert b == init + [last];
      AppendAssoc(a, init, [last]);
      ChangesMessagesAppend(a, init);
      ChangesMessagesSnoc(a + init, last);
      ChangesMessagesSnoc(init, last);
      AppendAssoc(ChangesMessages(a), ChangesMessages(init), ChangeMessages(last));
    }
  }

  /** A change that is not a "messages" change carrying a `messages` list,
      such as a status update, adds no message wherever it sits in an
      entry, and so no reply. */
  lemma StatusChangeAddsNothing(before: seq<Change>, c: Change, after: seq<Change>)
    requires c.field != Some("messages") || c.value.messages.None?
    ensures ChangesMessages(before + [c] + after) == ChangesMessages(before + after)
  {
    ChangesMessagesAppend(before + [c], after);
    ChangesMessagesSnoc(before, c);
    AppendNil(ChangesMessages(before));
    ChangesMessagesAppend(before, after);
  }

  /** The messages a one-entry, one-change delivery lists are those of its
      change. */
  lemma SingleChangeMessages(c: Change, otherKeys: nat)
    ensures PayloadMessages(Payload(Some([Entry(Some([c]))]), otherKeys)) == ChangeMessages(c)
  {
    var e := Entry(Some([c]));
    ChangesMessagesSnoc([], c);
    AppendNil([c]);
    AppendNil(ChangeMessages(c));
    assert EntryMessages(e) == ChangeMessages(c);
    assert [e][..0] == [];
    assert EntriesMessages([e]) == [] + EntryMessages(e);
  }

  /** A delivery whose only change lists one answerable message calls for
      exactly the reply to that message. */
  lemma SingleMessageSends(m: Message, respond: Responder)
    requires Answerable(m)
    ensures
      var p := Payload(Some([Entry(Some([Change(Some("messages"), ChangeValue(Some([m])))]))]), 0);
      Replies(Selected(PayloadMessages(p)), respond, 0) == [respond(m, 0)]
  {
    SingleChangeMessages(Change(Some("messages"), ChangeValue(Some([m]))), 0);
    SelectedSnoc([], m);
    AppendNil([m]);
    RepliesSnoc([], m, respond, 0);
  }

  /** A delivery holding one text message whose body mentions a restaurant
      keyword calls for exactly one send: the restaurant agent's reply to
      the body, made with the first generator call, to the sender. */
  lemma SingleTextMessage(sender: string, body: string, w: string, i: int, generate: Generator)
    requires w in RestaurantWords && OccursAt(w, ToLower(body), i)
    ensures
      var m := Message(Some(sender), Some("text"), Some(body));
      var p := Payload(Some([Entry(Some([Change(Some("messages"), ChangeValue(Some([m])))]))]), 0);
      Replies(Selected(PayloadMessages(p)), Reply(generate), 0)
      == [Send(Some(sender), Process(Restaurant, body, generate, 0))]
  {
    var m := Message(Some(sender), Some("text"), Some(body));
    KeywordStartsNonSpace(w);
    assert ToLower(body)[i] == w[0];
    LowerKeepsSpace(body, i);
    NotBlankAt(body, i);
    SingleMessageSends(m, Reply(generate));
    RoutedToRestaurant(body, ToLower(body), w, i);
  }

  /** One message of the batch calls for its reply when it is answerable
      and for nothing otherwise. */
  lemma OneMessageReplies(m: Message, respond: Responder, k: nat)
    ensures Replies(Selected([m]), respond, k) == if Answerable(m) then [respond(m, k)] else []
  {
    SelectedSnoc([], m);
    AppendNil([m]);
    RepliesSnoc([], m, respond, k);
  }

  /** The message loop's step: appending the reply to an answerable message,
      and nothing for another one, continues the sends for that message. */
  lemma AnswerStep(before: seq<Send>, after: seq<Send>, m: Message, respond: Responder)
    requires after == if Answerable(m) then before + [respond(m, |before|)] else before
    ensures after == before + Replies(Selected([m]), respond, |before|)
  {
    OneMessageReplies(m, respond, |before|);
    AppendNil(before);
  }

  /** The loops' step: when `before` holds the sends for the messages `a`
      and `after` continues it with the sends for the messages `b`, then
      `after` holds the sends for `a + b`. */
  lemma ContinueReplies(sends: seq<Send>, before: seq<Send>, after: seq<Send>,
                        a: seq<Message>, b: seq<Message>, ab: seq<Message>, respond: Responder)
    requires before == sends + Replies(Selected(a), respond, |sends|)
    requires after == before + Replies(Selected(b), respond, |before|)
    requires ab == a + b
    ensures after == sends + Replies(Selected(ab), respond, |sends|)
  {
    var sa, sb := Selected(a), Selected(b);
    SelectedAppend(a, b);
    RepliesLength(sa, respond, |sends|);
    RepliesAppendAt(sa, sb, respond, |sends|, |before|);
    AppendAssoc(sends, Replies(sa, respond, |sends|), Replies(sb, respond, |before|));
  }

  /** `RepliesAppend` with the numbering of the second batch given as `k2`. */
  lemma RepliesAppendAt(a: seq<Message>, b: seq<Message>, respond: Responder, k: nat, k2: nat)
    requires k2 == k + |a|
    ensures Replies(a + b, respond, k) == Replies(a, respond, k) + Replies(b, respond, k2)
  {
    RepliesAppend(a, b, respond, k);
  }

  /** The messages of the first `i + 1` entries are those of the first `i`
      followed by those of entry `i`. */
  lemma EntriesStep(entries: seq<Entry>, i: nat)
    requires i < |entries|
    ensures EntriesMessages(entries[..i + 1]) == EntriesMessages(entries[..i]) + EntryMessages(entries[i])
  {
    TakeSnoc(entries, i);
  }

  /** The messages of the first `c + 1` changes are those of the first `c`
      followed by those of change `c`. */
  lemma ChangesStep(changes: seq<Change>, c: nat)
    requires c < |changes|
    ensures ChangesMessages(changes[..c + 1]) == ChangesMessages(changes[..c]) + ChangeMessages(changes[c])
  {
    TakeSnoc(changes, c);
  }

  /** Nothing selected, nothing sent. */
  lemma NoReplies(sends: seq<Send>, respond: Responder)
    ensures sends + Replies(Selected([]), respond, |sends|) == sends
  {
    AppendNil(sends);
  }

  /** `webhook()` on the parsed request body `data` (`None` is what
      `request.get_json()` returned). An absent or empty body is refused with 400 and
      "no_data". Otherwise the entries, their changes and the changes'
      messages are walked in order; each answerable message is routed,
      answered through the generator and sent to its sender, whatever the
      transport says about earlier sends; the handler answers 200 and
      "received". */
  method HandleDelivery(data: Option<Payload>, generate: Generator, transport: Transport)
    returns (d: Delivery)
    ensures data.None? || IsEmptyObject(data.value) ==> d == Delivery(400, "no_data", [])
    ensures data.Some? && !IsEmptyObject(data.value) ==>
              && d.status == 200 && d.marker == "received"
              && d.sends == Replies(Selected(PayloadMessages(data.value)), Reply(generate), 0)
  {
    if data.None? || IsEmptyObject(data.value) {
      return Delivery(400, "no_data", []);
    }
    var sends: seq<Send> := [];
    if data.value.entry.Some? {
      sends := WalkEntries(data.value.entry.value, Reply(generate), transport, sends);
      AppendNil(Replies(Selected(PayloadMessages(data.value)), Reply(generate), 0));
    }
    return Delivery(200, "received", sends);
  }

  /** The loop over `data["entry"]`: adds to `sends` the sends for the
      messages of `entries`. The three loops take the per-message answer as
      the parameter `respond`. */
  method WalkEntries(entries: seq<Entry>, respond: Responder, transport: Transport, sends: seq<Send>)
    returns (out: seq<Send>)
    ensures out == sends + Replies(Selected(EntriesMessages(entries)), respond, |sends|)
  {
    out := sends;
    var i := 0;
    assert entries[..0] == [];
    NoReplies(sends, respond);
    while i < |entries|
      invariant 0 <= i <= |entries|
      invariant out == sends + Replies(Selected(EntriesMessages(entries[..i])), respond, |sends|)
    {
      var entry := entries[i];
      ghost var before := out;
      if entry.changes.Some? {
        out := WalkChanges(entry.changes.value, respond, transport, out);
      } else {
        NoReplies(out, respond);
      }
      EntriesStep(entries, i);
      ContinueReplies(sends, before, out, EntriesMessages(entries[..i]), EntryMessages(entry),
                      EntriesMessages(entries[..i + 1]), respond);
      i := i + 1;
    }
    assert entries[..i] == entries;
  }

  /** The loop over `entry["changes"]`: adds to `sends` the sends for the
      messages of the "messages" changes that carry a message list. */
  method WalkChanges(changes: seq<Change>, respond: Responder, transport: Transport, sends: seq<Send>)
    returns (out: seq<Send>)
    ensures out == sends + Replies(Selected(ChangesMessages(changes)), respond, |sends|)
  {
    out := sends;
    var c := 0;
    assert changes[..0] == [];
    NoReplies(sends, respond);
    while c < |changes|
      invariant 0 <= c <= |changes|
      invariant out == sends + Replies(Selected(ChangesMessages(changes[..c])), respond, |sends|)
    {
      var change := changes[c];
      ghost var before := out;
      if change.field == Some("messages") && change.value.messages.Some? {
        out := AnswerMessages(change.value.messages.value, respond, transport, out);
      } else {
        NoReplies(out, respond);
      }
      ChangesStep(changes, c);
      ContinueReplies(sends, before, out, ChangesMessages(changes[..c]), ChangeMessages(change),
                      ChangesMessages(changes[..c + 1]), respond);
      c := c + 1;
    }
    assert changes[..c] == changes;
  }

  /** The loop over `value["messages"]`: a message of another type, or one
      whose body is blank, is skipped; every other one is answered by
      `respond` and the answer is sent, whose outcome is only logged. The
      handler's `respond` is `Reply(generate)`: route the body with
      `get_agent`, let that agent's `process` answer it, address the answer
      to the sender. */
  method AnswerMessages(messages: seq<Message>, respond: Responder, transport: Transport, sends: seq<Send>)
    returns (out: seq<Send>)
    ensures out == sends + Replies(Selected(messages), respond, |sends|)
  {
    out := sends;
    var j := 0;
    assert messages[..0] == [];
    NoReplies(sends, respond);
    while j < |messages|
      invariant 0 <= j <= |messages|
      invariant out == sends + Replies(Selected(messages[..j]), respond, |sends|)
    {
      var message := messages[j];
      ghost var before := out;
      if message.kind == Some("text") {
        var body := BodyOf(message);
        if !IsBlank(body) {
          var send := respond(message, |out|);
          var delivered := transport(|out|, send);
          out := out + [send];
        }
      }
      AnswerStep(before, out, message, respond);
      TakeSnoc(messages, j);
      ContinueReplies(sends, before, out, messages[..j], [message], messages[..j + 1], respond);
      j := j + 1;
    }
    assert messages[..j] == messages;
  }
}
