/** Per-channel sequence numbers, and clients that catch up with cursors. */
module MessageSync {
  import opened Hashing
  import Rows

  datatype Message = Message(seqId: nat, sender: nat, clientId: Option<nat>, deleted: bool)

  /** A channel's counter, its message rows in sequence order, and whether it is deleted. */
  datatype Channel = Channel(lastSeqId: nat, messages: seq<Message>, deleted: bool)

  /** An uncommitted publish; its transaction holds the channel lock. */
  datatype Draft = Draft(seqId: nat, sender: nat, clientId: Option<nat>)

  /** One client's view: how far it has synced each channel and what it was given. */
  datatype Client = Client(cursor: map<nat, nat>, received: map<nat, seq<Message>>)

  /** `memberships` are the channels in which the client's user has an approved role. */
  datatype State = State(channels: map<nat, Channel>, open: map<nat, Draft>, memberships: set<nat>, client: Client)

  // ----- pages -----

  predicate Wanted(m: Message, after: nat) { m.seqId > after && !m.deleted }

  /** The undeleted messages after a cursor, in order. */
  function Unseen(messages: seq<Message>, after: nat): seq<Message> {
    if messages == [] then [] else
      Unseen(messages[..|messages| - 1], after)
      + (if Wanted(messages[|messages| - 1], after) then [messages[|messages| - 1]] else [])
  }

  function Page(messages: seq<Message>, after: nat, limit: nat): seq<Message> {
    var unseen := Unseen(messages, after);
    if |unseen| <= limit then unseen else unseen[..limit]
  }

  function Advanced(after: nat, page: seq<Message>): nat {
    if page == [] then after else page[|page| - 1].seqId
  }

  predicate Numbered(messages: seq<Message>) {
    forall i :: 0 <= i < |messages| ==> messages[i].seqId == i + 1
  }

  predicate Ascending(messages: seq<Message>, after: nat) {
    && (forall i :: 0 <= i < |messages| ==> messages[i].seqId > after)
    && (forall i, j :: 0 <= i < j < |messages| ==> messages[i].seqId < messages[j].seqId)
  }

  lemma {:induction false} UnseenFacts(messages: seq<Message>, after: nat)
    requires Numbered(messages)
    ensures Ascending(Unseen(messages, after), after)
    ensures forall m :: m in Unseen(messages, after) <==> m in messages && Wanted(m, after)
    ensures forall m :: m in Unseen(messages, after) ==> m.seqId <= |messages|
  {
    if messages != [] {
      var front, m := messages[..|messages| - 1], messages[|messages| - 1];
      UnseenFacts(front, after);
      assert messages == front + [m];
    }
  }

  function Tail(m: Message, after: nat): seq<Message> { if Wanted(m, after) then [m] else [] }

  lemma UnseenSnoc(messages: seq<Message>, after: nat)
    requires messages != []
    ensures Unseen(messages, after) == Unseen(messages[..|messages| - 1], after) + Tail(messages[|messages| - 1], after)
  {
  }

  /** Moving the cursor to any returned message leaves exactly the ones after it. */
  lemma {:induction false} UnseenAfter(messages: seq<Message>, after: nat, k: nat)
    requires Numbered(messages) && 0 < k <= |Unseen(messages, after)|
    ensures Unseen(messages, Unseen(messages, after)[k - 1].seqId) == Unseen(messages, after)[k..]
  {
    UnseenNotEmpty(messages, after);
    hide Unseen, Tail;
    var front, m := messages[..|messages| - 1], messages[|messages| - 1];
    var all, some := Unseen(messages, after), Unseen(front, after);
    var cut := all[k - 1].seqId;
    UnseenSnoc(messages, after);
    UnseenSnoc(messages, cut);
    if k <= |some| {
      UnseenAfter(front, after, k);
      assert all[k - 1] == some[k - 1];
      SameTail(front, m, after, k);
      assert (some + Tail(m, after))[k..] == some[k..] + Tail(m, after);
    } else {
      LastUnseen(front, m, after, k);
      NothingBeyond(front, m.seqId);
    }
  }

  lemma UnseenNotEmpty(messages: seq<Message>, after: nat)
    requires Unseen(messages, after) != []
    ensures messages != []
  {
  }

  lemma SameTail(front: seq<Message>, m: Message, after: nat, k: nat)
    requires Numbered(front + [m]) && 0 < k <= |Unseen(front, after)|
    ensures Tail(m, Unseen(front, after)[k - 1].seqId) == Tail(m, after)
  {
    hide Unseen;
    assert front == (front + [m])[..|front|] && m == (front + [m])[|front|];
    UnseenFacts(front, after);
    assert Unseen(front, after)[k - 1] in Unseen(front, after);
  }

  lemma LastUnseen(front: seq<Message>, m: Message, after: nat, k: nat)
    requires Numbered(front + [m]) && |Unseen(front, after)| < k <= |Unseen(front, after) + Tail(m, after)|
    ensures var all := Unseen(front, after) + Tail(m, after);
            all[k - 1] == m && all[k..] == [] && Tail(m, m.seqId) == [] && |front| <= m.seqId
  {
    assert m == (front + [m])[|front|];
  }

  lemma {:induction false} NothingBeyond(messages: seq<Message>, after: nat)
    requires Numbered(messages) && |messages| <= after
    ensures Unseen(messages, after) == []
  {
    if messages != [] {
      NothingBeyond(messages[..|messages| - 1], after);
    }
  }

  /** A page and what is left beyond the advanced cursor make up what was unseen. */
  lemma PagesPartition(messages: seq<Message>, after: nat, limit: nat)
    requires Numbered(messages)
    ensures var page := Page(messages, after, limit);
            && |page| <= limit
            && Unseen(messages, after) == page + Unseen(messages, Advanced(after, page))
            && (|page| < limit ==> Unseen(messages, Advanced(after, page)) == [])
  {
    hide Unseen;
    var unseen, page := Unseen(messages, after), Page(messages, after, limit);
    if page != [] {
      UnseenAfter(messages, after, |page|);
      assert unseen == unseen[..|page|] + unseen[|page|..];
      assert page == unseen[..|page|];
    } else {
      assert [] + unseen == unseen;
    }
  }

  // ----- publishing and reading, interleaved -----

  datatype Step =
    | NewChannel(channel: nat)
    | Join(channel: nat)
    | Leave(channel: nat)
    | DeleteChannel(channel: nat)
    | RestoreChannel(channel: nat)
    | BeginPublish(channel: nat, sender: nat, clientId: Option<nat>)
    | CommitPublish(channel: nat)
    | RollBack(channel: nat)
    | Tombstone(channel: nat, seqId: nat)
    | ReadPage(channel: nat, limit: nat)

  function Cursor(cursors: map<nat, nat>, channel: nat): nat {
    if channel in cursors then cursors[channel] else 0
  }

  function Received(client: Client, channel: nat): seq<Message> {
    if channel in client.received then client.received[channel] else []
  }

  predicate Live(s: State, channel: nat) { channel in s.channels && !s.channels[channel].deleted }

  predicate Enabled(s: State, a: Step) {
    match a
    case NewChannel(c) => c !in s.channels
    case Join(c) => Live(s, c)
    case Leave(c) => Live(s, c)
    case DeleteChannel(c) => Live(s, c) && c !in s.open
    case RestoreChannel(c) => c in s.channels && s.channels[c].deleted
    case BeginPublish(c, _, _) => Live(s, c) && c !in s.open
    case CommitPublish(c) => c in s.open && c in s.channels
    case RollBack(c) => c in s.open
    case Tombstone(c, seqId) => Live(s, c) && c !in s.open && 1 <= seqId <= |s.channels[c].messages|
    case ReadPage(c, limit) => c in s.channels && 1 <= limit
  }

  function Append(ch: Channel, d: Draft): Channel {
    ch.(lastSeqId := d.seqId, messages := ch.messages + [Message(d.seqId, d.sender, d.clientId, false)])
  }

  function Delete(ch: Channel, seqId: nat): Channel
    requires 1 <= seqId <= |ch.messages|
  {
    ch.(messages := ch.messages[seqId - 1 := ch.messages[seqId - 1].(deleted := true)])
  }

  function Apply(s: State, a: Step): State
    requires Enabled(s, a)
  {
    match a
    case NewChannel(c) => s.(channels := s.channels[c := Channel(0, [], false)],
                             client := Client(s.client.cursor - {c}, s.client.received - {c}))
    case Join(c) => s.(memberships := s.memberships + {c})
    case Leave(c) => s.(memberships := s.memberships - {c})
    case DeleteChannel(c) => s.(channels := s.channels[c := s.channels[c].(deleted := true)])
    case RestoreChannel(c) => s.(channels := s.channels[c := s.channels[c].(deleted := false)])
    case BeginPublish(c, sender, clientId) => s.(open := s.open[c := Draft(s.channels[c].lastSeqId + 1, sender, clientId)])
    case CommitPublish(c) => s.(channels := s.channels[c := Append(s.channels[c], s.open[c])], open := s.open - {c})
    case RollBack(c) => s.(open := s.open - {c})
    case Tombstone(c, seqId) => s.(channels := s.channels[c := Delete(s.channels[c], seqId)])
    case ReadPage(c, limit) =>
      var after := Cursor(s.client.cursor, c);
      var page := Page(s.channels[c].messages, after, limit);
      s.(client := Client(s.client.cursor[c := Advanced(after, page)], s.client.received[c := Received(s.client, c) + page]))
  }

  predicate ChannelOk(ch: Channel) {
    |ch.messages| == ch.lastSeqId && Numbered(ch.messages)
  }

  predicate Genuine(ch: Channel, cursor: nat, received: seq<Message>)
    requires cursor <= |ch.messages|
  {
    forall i :: 0 <= i < |received| ==> 0 < received[i].seqId <= cursor && ch.messages[received[i].seqId - 1].(deleted := false) == received[i]
  }

  predicate NoneMissing(ch: Channel, cursor: nat, received: seq<Message>)
    requires cursor <= |ch.messages|
  {
    forall i :: 0 <= i < cursor && !ch.messages[i].deleted ==> ch.messages[i] in received
  }

  /** Whoever is at `cursor` holds every undeleted message up to it, once and in order. */
  predicate CaughtUp(ch: Channel, cursor: nat, received: seq<Message>) {
    && cursor <= |ch.messages|
    && Ascending(received, 0)
    && Genuine(ch, cursor, received)
    && NoneMissing(ch, cursor, received)
  }

  predicate Invariant(s: State) {
    && s.memberships <= s.channels.Keys
    && (forall c :: c in s.channels ==> ChannelOk(s.channels[c]))
    && (forall c :: c in s.open ==> c in s.channels && s.open[c].seqId == s.channels[c].lastSeqId + 1)
    && (forall c :: c in s.channels ==> CaughtUp(s.channels[c], Cursor(s.client.cursor, c), Received(s.client, c)))
  }

  lemma AppendKeeps(ch: Channel, d: Draft, cursor: nat, received: seq<Message>)
    requires ChannelOk(ch) && CaughtUp(ch, cursor, received) && d.seqId == ch.lastSeqId + 1
    ensures ChannelOk(Append(ch, d)) && CaughtUp(Append(ch, d), cursor, received)
  {
  }

  lemma DeleteKeeps(ch: Channel, seqId: nat, cursor: nat, received: seq<Message>)
    requires ChannelOk(ch) && CaughtUp(ch, cursor, received) && 1 <= seqId <= |ch.messages|
    ensures ChannelOk(Delete(ch, seqId)) && CaughtUp(Delete(ch, seqId), cursor, received)
  {
  }

  /** A page is a front of what is unseen. */
  lemma PageIsFront(messages: seq<Message>, after: nat, limit: nat)
    ensures var unseen, page := Unseen(messages, after), Page(messages, after, limit);
            |page| <= |unseen| && page == unseen[..|page|]
  {
  }

  lemma PageMember(messages: seq<Message>, after: nat, limit: nat, i: nat)
    requires Numbered(messages) && i < |Page(messages, after, limit)|
    ensures var page := Page(messages, after, limit);
            && !page[i].deleted && after < page[i].seqId <= Advanced(after, page) <= |messages|
            && page[i] == messages[page[i].seqId - 1]
  {
    hide Unseen, Page;
    var unseen, page := Unseen(messages, after), Page(messages, after, limit);
    PageIsFront(messages, after, limit);
    UnseenFacts(messages, after);
    var last := |page| - 1;
    assert page[i] == unseen[i] && page[last] == unseen[last];
    assert unseen[i] in unseen && unseen[last] in unseen;
  }

  lemma PageAscends(messages: seq<Message>, after: nat, limit: nat)
    requires Numbered(messages)
    ensures Ascending(Page(messages, after, limit), after)
  {
    hide Unseen;
    UnseenFacts(messages, after);
  }

  lemma PageComplete(messages: seq<Message>, after: nat, limit: nat, i: nat)
    requires Numbered(messages) && after <= i < |messages| && !messages[i].deleted
    requires i < Advanced(after, Page(messages, after, limit))
    ensures messages[i] in Page(messages, after, limit)
  {
    hide Unseen, Page;
    var unseen, page := Unseen(messages, after), Page(messages, after, limit);
    PageIsFront(messages, after, limit);
    UnseenFacts(messages, after);
    assert messages[i] in unseen;
    var j :| 0 <= j < |unseen| && unseen[j] == messages[i];
    assert page[|page| - 1] == unseen[|page| - 1];
    assert j < |page| && page[j] == messages[i];
  }

  lemma AscendingTogether(a: seq<Message>, b: seq<Message>, cut: nat)
    requires Ascending(a, 0) && Ascending(b, cut) && forall i :: 0 <= i < |a| ==> a[i].seqId <= cut
    ensures Ascending(a + b, 0)
  {
  }

  lemma AdvanceInRange(ch: Channel, cursor: nat, limit: nat)
    requires ChannelOk(ch) && cursor <= |ch.messages|
    ensures cursor <= Advanced(cursor, Page(ch.messages, cursor, limit)) <= |ch.messages|
  {
    hide Page;
    var page := Page(ch.messages, cursor, limit);
    if page != [] {
      PageMember(ch.messages, cursor, limit, |page| - 1);
    }
  }

  lemma ReadStaysGenuine(ch: Channel, cursor: nat, received: seq<Message>, limit: nat)
    requires ChannelOk(ch) && cursor <= |ch.messages| && Genuine(ch, cursor, received)
    ensures var page := Page(ch.messages, cursor, limit);
            Advanced(cursor, page) <= |ch.messages| && Genuine(ch, Advanced(cursor, page), received + page)
  {
    hide Page, Advanced;
    var page := Page(ch.messages, cursor, limit);
    AdvanceInRange(ch, cursor, limit);
    forall i | 0 <= i < |page|
      ensures 0 < page[i].seqId <= Advanced(cursor, page) && ch.messages[page[i].seqId - 1].(deleted := false) == page[i]
    {
      PageMember(ch.messages, cursor, limit, i);
    }
  }

  lemma ReadMissesNone(ch: Channel, cursor: nat, received: seq<Message>, limit: nat)
    requires ChannelOk(ch) && cursor <= |ch.messages| && NoneMissing(ch, cursor, received)
    ensures var page := Page(ch.messages, cursor, limit);
            Advanced(cursor, page) <= |ch.messages| && NoneMissing(ch, Advanced(cursor, page), received + page)
  {
    hide Page, Advanced;
    var page := Page(ch.messages, cursor, limit);
    AdvanceInRange(ch, cursor, limit);
    forall i | 0 <= i < Advanced(cursor, page) && !ch.messages[i].deleted
      ensures ch.messages[i] in received + page
    {
      if i >= cursor {
        PageComplete(ch.messages, cursor, limit, i);
      }
    }
  }

  lemma ReadKeeps(ch: Channel, cursor: nat, received: seq<Message>, limit: nat)
    requires ChannelOk(ch) && CaughtUp(ch, cursor, received)
    ensures var page := Page(ch.messages, cursor, limit);
            CaughtUp(ch, Advanced(cursor, page), received + page)
  {
    hide Page, Ascending, NoneMissing, Advanced;
    PageAscends(ch.messages, cursor, limit);
    AscendingTogether(received, Page(ch.messages, cursor, limit), cursor);
    ReadStaysGenuine(ch, cursor, received, limit);
    ReadMissesNone(ch, cursor, received, limit);
  }

  lemma StepKeepsInvariant(s: State, a: Step)
    requires Invariant(s) && Enabled(s, a)
    ensures Invariant(Apply(s, a))
  {
    hide CaughtUp, ChannelOk, Append, Delete, Page;
    match a
    case NewChannel(c) => EmptyChannel();
    case Join(_) =>
    case Leave(_) =>
    case DeleteChannel(c) => FlagKeeps(s.channels[c], true, Cursor(s.client.cursor, c), Received(s.client, c));
    case RestoreChannel(c) => FlagKeeps(s.channels[c], false, Cursor(s.client.cursor, c), Received(s.client, c));
    case BeginPublish(_, _, _) =>
    case CommitPublish(c) => AppendKeeps(s.channels[c], s.open[c], Cursor(s.client.cursor, c), Received(s.client, c));
    case RollBack(_) =>
    case Tombstone(c, seqId) =>
      DeleteKeeps(s.channels[c], seqId, Cursor(s.client.cursor, c), Received(s.client, c));
    case ReadPage(c, limit) => ReadKeeps(s.channels[c], Cursor(s.client.cursor, c), Received(s.client, c), limit);
  }

  lemma FlagKeeps(ch: Channel, deleted: bool, cursor: nat, received: seq<Message>)
    requires ChannelOk(ch) && CaughtUp(ch, cursor, received)
    ensures ChannelOk(ch.(deleted := deleted)) && CaughtUp(ch.(deleted := deleted), cursor, received)
  {
  }

  lemma EmptyChannel()
    ensures ChannelOk(Channel(0, [], false)) && CaughtUp(Channel(0, [], false), 0, [])
  {
  }

  predicate Legal(s: State, run: seq<Step>)
    decreases |run|
  {
    run == [] || (Enabled(s, run[0]) && Legal(Apply(s, run[0]), run[1..]))
  }

  function After(s: State, run: seq<Step>): State
    requires Legal(s, run)
    decreases |run|
  {
    if run == [] then s else After(Apply(s, run[0]), run[1..])
  }

  const EMPTY := State(map[], map[], {}, Client(map[], map[]))

  lemma {:induction false} RunKeepsInvariant(s: State, run: seq<Step>)
    requires Invariant(s) && Legal(s, run)
    ensures Invariant(After(s, run))
    decreases |run|
  {
    if run != [] {
      hide Invariant, Enabled, Apply;
      StepKeepsInvariant(s, run[0]);
      RunKeepsInvariant(Apply(s, run[0]), run[1..]);
    }
  }

  /** Every membership is of a channel the tables hold in order. */
  predicate ReadyFor(channels: map<nat, Channel>, memberships: set<nat>) {
    forall c :: c in memberships ==> c in channels && ChannelOk(channels[c])
  }

  /** In every interleaving of publishes, roll-backs, deletions and page reads, committed
      sequence numbers are 1..last without a gap, and a client has received every undeleted
      message up to its cursor exactly once and in order: cursors never skip. The tables are
      always what a sync request expects of them. */
  lemma EveryRunSyncs(run: seq<Step>, c: nat)
    requires Legal(EMPTY, run)
    ensures var s := After(EMPTY, run);
            && ReadyFor(s.channels, s.memberships)
            && (c in s.channels ==>
                  && (forall i :: 0 <= i < |s.channels[c].messages| ==> s.channels[c].messages[i].seqId == i + 1)
                  && |s.channels[c].messages| == s.channels[c].lastSeqId
                  && CaughtUp(s.channels[c], Cursor(s.client.cursor, c), Received(s.client, c)))
  {
    hide Legal, After, CaughtUp;
    RunKeepsInvariant(EMPTY, run);
  }

  // ----- one response over several channels -----

  function Sum(pages: seq<seq<Message>>): nat {
    if pages == [] then 0 else Sum(pages[..|pages| - 1]) + |pages[|pages| - 1]|
  }

  predicate Servable(channels: map<nat, Channel>, selected: seq<nat>) {
    forall i :: 0 <= i < |selected| ==> selected[i] in channels && ChannelOk(channels[selected[i]])
  }

  function UnseenIn(channels: map<nat, Channel>, cursors: map<nat, nat>, c: nat): seq<Message>
    requires c in channels
  {
    Unseen(channels[c].messages, Cursor(cursors, c))
  }

  /** `page` is the front of what the channel has unseen, and `rest` says whether that is all. */
  predicate Fetched(channels: map<nat, Channel>, cursors: map<nat, nat>, c: nat, page: seq<Message>, all: bool)
    requires c in channels
  {
    && UnseenIn(channels, cursors, c) == page + Unseen(channels[c].messages, Advanced(Cursor(cursors, c), page))
    && (all ==> Unseen(channels[c].messages, Advanced(Cursor(cursors, c), page)) == [])
  }

  /** The pages of one response: `limit` is a single budget over the channels in order. */
  method FetchPages(channels: map<nat, Channel>, selected: seq<nat>, cursors: map<nat, nat>, limit: nat) returns (pages: seq<seq<Message>>)
    requires Servable(channels, selected) && 1 <= limit
    ensures |pages| == |selected| && Sum(pages) <= limit
    ensures forall i :: 0 <= i < |selected| ==> Fetched(channels, cursors, selected[i], pages[i], Sum(pages) < limit)
  {
    hide Unseen, Page;
    pages := [];
    var remaining: nat, i := limit, 0;
    while i < |selected|
      invariant 0 <= i <= |selected| && |pages| == i && Sum(pages) + remaining == limit
      invariant forall j :: 0 <= j < i ==> Fetched(channels, cursors, selected[j], pages[j], remaining > 0)
    {
      var c, page: seq<Message> := selected[i], [];
      PagesPartition(channels[c].messages, Cursor(cursors, c), remaining);
      if remaining > 0 {
        page := Page(channels[c].messages, Cursor(cursors, c), remaining);
      } else {
        assert [] + UnseenIn(channels, cursors, c) == UnseenIn(channels, cursors, c);
      }
      assert (pages + [page])[..i] == pages;
      pages := pages + [page];
      remaining, i := remaining - |page|, i + 1;
    }
  }

  // ----- which channels a request is about -----

  const CHANNEL_ARRAY_MAX := 100

  predicate Increasing(selected: seq<nat>) {
    forall i, j :: 0 <= i < j < |selected| ==> selected[i] < selected[j]
  }

  /** The channels a request names, or all the user's, as far as memberships go; deleted
      channels are not filtered out. Unnamed ones are cut off after the first hundred. */
  ghost predicate Selects(memberships: set<nat>, cursors: map<nat, nat>, selected: seq<nat>) {
    && Increasing(selected)
    && (cursors != map[] ==> forall c :: c in selected <==> c in cursors && c in memberships)
    && (cursors == map[] ==>
          && (forall c :: c in selected ==> c in memberships)
          && |selected| <= CHANNEL_ARRAY_MAX
          && (forall c :: c in memberships && c !in selected ==> |selected| == CHANNEL_ARRAY_MAX && forall d :: d in selected ==> d < c))
  }

  method Smallest(ids: set<nat>) returns (m: nat)
    requires ids != {}
    ensures m in ids && forall c :: c in ids ==> m <= c
  {
    m :| m in ids;
    var rest := ids - {m};
    while rest != {}
      invariant m in ids && rest <= ids && forall c :: c in ids && c !in rest ==> m <= c
      decreases |rest|
    {
      var c :| c in rest;
      if c < m { m := c; }
      rest := rest - {c};
    }
  }

  /** The smallest `limit` elements in order. */
  method SmallestFirst(ids: set<nat>, limit: nat) returns (r: seq<nat>)
    ensures Increasing(r) && (forall c :: c in r ==> c in ids) && |r| <= limit
    ensures forall c :: c in ids && c !in r ==> |r| == limit && forall d :: d in r ==> d < c
  {
    r := [];
    var rest := ids;
    while rest != {} && |r| < limit
      invariant rest <= ids && Increasing(r) && |r| <= limit
      invariant forall c :: c in ids <==> c in rest || c in r
      invariant forall c, d :: c in rest && d in r ==> d < c
      decreases |rest|
    {
      var m := Smallest(rest);
      assert forall i :: 0 <= i < |r| ==> r[i] in r;
      r, rest := r + [m], rest - {m};
    }
  }

  function IdKey(id: nat): Rows.SortKey { (id, 0) }

  lemma IncreasingUnique(a: seq<nat>, b: seq<nat>)
    requires Increasing(a) && Increasing(b) && forall c :: c in a <==> c in b
    ensures a == b
  {
    Rows.OrderedUnique(a, b, IdKey);
  }

  lemma FrontOfIncreasing(a: seq<nat>, c: nat)
    requires a != [] && Increasing(a)
    ensures c in a[..|a| - 1] <==> c in a && c != a[|a| - 1]
  {
    if c in a && c != a[|a| - 1] {
      var i :| 0 <= i < |a| && a[i] == c;
      assert a[..|a| - 1][i] == c;
    }
    if c in a[..|a| - 1] {
      var i :| 0 <= i < |a| - 1 && a[..|a| - 1][i] == c;
    }
  }

  predicate SomeDeleted(channels: map<nat, Channel>, selected: seq<nat>) {
    exists i :: 0 <= i < |selected| && selected[i] in channels && channels[selected[i]].deleted
  }

  /** One sync request. A selected channel that is deleted makes the whole request fail. */
  method Sync(channels: map<nat, Channel>, memberships: set<nat>, cursors: map<nat, nat>, limit: nat)
    returns (selected: seq<nat>, r: Result<seq<seq<Message>>, nat>)
    requires ReadyFor(channels, memberships) && 1 <= limit
    ensures Selects(memberships, cursors, selected) && Servable(channels, selected)
    ensures r.Err? <==> SomeDeleted(channels, selected)
    ensures r.Ok? ==> |r.value| == |selected| && Sum(r.value) <= limit
    ensures r.Ok? ==> forall i :: 0 <= i < |selected| ==> Fetched(channels, cursors, selected[i], r.value[i], Sum(r.value) < limit)
  {
    hide Fetched, ChannelOk;
    if cursors != map[] {
      selected := SmallestFirst(cursors.Keys * memberships, |cursors.Keys * memberships|);
      AllSelected(cursors.Keys * memberships, selected);
    } else {
      selected := SmallestFirst(memberships, CHANNEL_ARRAY_MAX);
    }
    assert Servable(channels, selected) by { SelectedServable(channels, memberships, selected); }
    var i := 0;
    while i < |selected|
      invariant 0 <= i <= |selected| && forall j :: 0 <= j < i ==> !channels[selected[j]].deleted
    {
      if channels[selected[i]].deleted { return selected, Err(selected[i]); }
      i := i + 1;
    }
    var pages := FetchPages(channels, selected, cursors, limit);
    r := Ok(pages);
  }

  lemma SelectedServable(channels: map<nat, Channel>, memberships: set<nat>, selected: seq<nat>)
    requires ReadyFor(channels, memberships) && forall c :: c in selected ==> c in memberships
    ensures Servable(channels, selected)
  {
    forall i | 0 <= i < |selected|
      ensures selected[i] in channels && ChannelOk(channels[selected[i]])
    {
      assert selected[i] in selected;
    }
  }

  function IdSet(r: seq<nat>): set<nat> {
    if r == [] then {} else IdSet(r[..|r| - 1]) + {r[|r| - 1]}
  }

  lemma {:induction false} IdSetMembers(r: seq<nat>)
    ensures forall d :: d in IdSet(r) <==> d in r
  {
    if r != [] {
      IdSetMembers(r[..|r| - 1]);
      assert r == r[..|r| - 1] + [r[|r| - 1]];
    }
  }

  lemma {:induction false} SizeOfIncreasing(r: seq<nat>)
    requires Increasing(r)
    ensures |IdSet(r)| == |r|
  {
    if r != [] {
      var front, m := r[..|r| - 1], r[|r| - 1];
      SizeOfIncreasing(front);
      IdSetMembers(front);
      FrontOfIncreasing(r, m);
    }
  }

  lemma AllSelected(ids: set<nat>, r: seq<nat>)
    requires Increasing(r) && (forall c :: c in r ==> c in ids)
    requires forall c :: c in ids && c !in r ==> |r| == |ids|
    ensures forall c :: c in r <==> c in ids
  {
    SizeOfIncreasing(r);
    IdSetMembers(r);
    forall c | c in ids
      ensures c in r
    {
      if c !in r {
        Rows.SubsetSize(IdSet(r), ids - {c});
      }
    }
  }

  // ----- repeating sync with advanced cursors -----

  predicate NoRepeats(selected: seq<nat>) {
    forall i, j :: 0 <= i < j < |selected| ==> selected[i] != selected[j]
  }

  /** The cursors a client sends next, having been given `pages`. */
  function NextCursors(selected: seq<nat>, cursors: map<nat, nat>, pages: seq<seq<Message>>): map<nat, nat>
    requires |pages| == |selected|
  {
    if selected == [] then cursors else
      var last := |selected| - 1;
      NextCursors(selected[..last], cursors, pages[..last])[selected[last] := Advanced(Cursor(cursors, selected[last]), pages[last])]
  }

  lemma {:induction false} NextCursor(selected: seq<nat>, cursors: map<nat, nat>, pages: seq<seq<Message>>, i: nat)
    requires |pages| == |selected| && NoRepeats(selected) && i < |selected|
    ensures Cursor(NextCursors(selected, cursors, pages), selected[i]) == Advanced(Cursor(cursors, selected[i]), pages[i])
  {
    var last := |selected| - 1;
    if i < last {
      assert selected[..last][i] == selected[i] && pages[..last][i] == pages[i];
      NextCursor(selected[..last], cursors, pages[..last], i);
    }
  }

  /** How many messages are still unseen over the selected channels. */
  ghost function Backlog(channels: map<nat, Channel>, selected: seq<nat>, cursors: map<nat, nat>): nat
    requires forall i :: 0 <= i < |selected| ==> selected[i] in channels
  {
    if selected == [] then 0 else
      var last := |selected| - 1;
      Backlog(channels, selected[..last], cursors) + |UnseenIn(channels, cursors, selected[last])|
  }

  lemma {:induction false} BacklogShrinks(channels: map<nat, Channel>, selected: seq<nat>, cursors: map<nat, nat>, next: map<nat, nat>, pages: seq<seq<Message>>)
    requires |pages| == |selected| && forall i :: 0 <= i < |selected| ==> selected[i] in channels
    requires forall i :: 0 <= i < |selected| ==> UnseenIn(channels, cursors, selected[i]) == pages[i] + UnseenIn(channels, next, selected[i])
    ensures Backlog(channels, selected, cursors) == Sum(pages) + Backlog(channels, selected, next)
  {
    hide UnseenIn;
    if selected != [] {
      var last := |selected| - 1;
      assert forall i :: 0 <= i < last ==> selected[..last][i] == selected[i] && pages[..last][i] == pages[i];
      BacklogShrinks(channels, selected[..last], cursors, next, pages[..last]);
    }
  }

  lemma ResponseAdvances(channels: map<nat, Channel>, selected: seq<nat>, cursors: map<nat, nat>, pages: seq<seq<Message>>, all: bool)
    requires Servable(channels, selected) && NoRepeats(selected) && |pages| == |selected|
    requires forall i :: 0 <= i < |selected| ==> Fetched(channels, cursors, selected[i], pages[i], all)
    ensures var next := NextCursors(selected, cursors, pages);
            forall i :: 0 <= i < |selected| ==>
              && UnseenIn(channels, cursors, selected[i]) == pages[i] + UnseenIn(channels, next, selected[i])
              && (all ==> UnseenIn(channels, next, selected[i]) == [])
  {
    hide Unseen, NextCursors, Cursor, Advanced;
    forall i | 0 <= i < |selected|
      ensures Cursor(NextCursors(selected, cursors, pages), selected[i]) == Advanced(Cursor(cursors, selected[i]), pages[i])
    {
      NextCursor(selected, cursors, pages, i);
    }
  }

  lemma {:induction false} NextCursorsKeys(selected: seq<nat>, cursors: map<nat, nat>, pages: seq<seq<Message>>)
    requires |pages| == |selected|
    ensures NextCursors(selected, cursors, pages).Keys == cursors.Keys + set c | c in selected
  {
    if selected != [] {
      var last := |selected| - 1;
      NextCursorsKeys(selected[..last], cursors, pages[..last]);
      assert selected == selected[..last] + [selected[last]];
      assert (set c | c in selected) == (set c | c in selected[..last]) + {selected[last]};
    }
  }

  /** The request that follows is about the same channels. */
  lemma SameSelection(memberships: set<nat>, cursors: map<nat, nat>, selected: seq<nat>, next: map<nat, nat>, again: seq<nat>)
    requires Selects(memberships, cursors, selected) && Selects(memberships, next, again)
    requires next.Keys == cursors.Keys + set c | c in selected
    ensures again == selected
  {
    if cursors != map[] {
      assert cursors.Keys != {};
      assert next != map[];
    } else if selected != [] {
      assert selected[0] in next.Keys;
      assert next != map[];
    } else {
      assert next.Keys == {} && next == map[];
    }
    forall c
      ensures c in again <==> c in selected
    {
    }
    IncreasingUnique(again, selected);
  }

  function Joined(a: seq<seq<Message>>, b: seq<seq<Message>>): (r: seq<seq<Message>>)
    requires |a| == |b|
    ensures |r| == |a| && forall i :: 0 <= i < |a| ==> r[i] == a[i] + b[i]
  {
    if a == [] then [] else Joined(a[..|a| - 1], b[..|a| - 1]) + [a[|a| - 1] + b[|a| - 1]]
  }

  /** Repeating until a response is not full returns every undeleted message after the
      starting cursors exactly once, in order per channel; it succeeds exactly when none of
      the selected channels is deleted. */
  method SyncUntilDone(channels: map<nat, Channel>, memberships: set<nat>, cursors: map<nat, nat>, limit: nat)
    returns (selected: seq<nat>, r: Result<seq<seq<Message>>, nat>)
    requires ReadyFor(channels, memberships) && 1 <= limit
    ensures Selects(memberships, cursors, selected) && Servable(channels, selected)
    ensures r.Err? <==> SomeDeleted(channels, selected)
    ensures r.Ok? ==> |r.value| == |selected| && forall i :: 0 <= i < |selected| ==> r.value[i] == UnseenIn(channels, cursors, selected[i])
  {
    hide Fetched, UnseenIn, NextCursors, Selects, SomeDeleted, ChannelOk;
    var response;
    selected, response := Sync(channels, memberships, cursors, limit);
    if response.Err? { return selected, response; }
    NoRepeatsSelected(memberships, cursors, selected);
    var pages, received, next := response.value, response.value, cursors;
    ResponseAdvances(channels, selected, cursors, pages, Sum(pages) < limit);
    next := NextCursors(selected, cursors, pages);
    NextCursorsKeys(selected, cursors, pages);
    while Sum(pages) == limit
      invariant |pages| == |received| == |selected| && Sum(pages) <= limit
      invariant next.Keys == cursors.Keys + set c | c in selected
      invariant forall i :: 0 <= i < |selected| ==> UnseenIn(channels, cursors, selected[i]) == received[i] + UnseenIn(channels, next, selected[i])
      invariant Sum(pages) < limit ==> forall i :: 0 <= i < |selected| ==> UnseenIn(channels, next, selected[i]) == []
      decreases Backlog(channels, selected, next), Sum(pages)
    {
      var again;
      again, response := Sync(channels, memberships, next, limit);
      SameSelection(memberships, cursors, selected, next, again);
      pages := response.value;
      ResponseAdvances(channels, selected, next, pages, Sum(pages) < limit);
      var after := NextCursors(selected, next, pages);
      NextCursorsKeys(selected, next, pages);
      BacklogShrinks(channels, selected, next, after, pages);
      JoinPages(channels, selected, cursors, next, after, received, pages);
      received, next := Joined(received, pages), after;
    }
    r := Ok(received);
  }

  lemma NoRepeatsSelected(memberships: set<nat>, cursors: map<nat, nat>, selected: seq<nat>)
    requires Selects(memberships, cursors, selected)
    ensures NoRepeats(selected)
  {
  }

  // ----- memberships of deleted channels -----

  /** Until the channel is restored its members cannot leave it. */
  predicate MemberOfDeleted(s: State, c: nat) {
    c in s.memberships && c in s.channels && s.channels[c].deleted
  }

  lemma {:induction false} StuckUntilRestored(s: State, run: seq<Step>, c: nat)
    requires MemberOfDeleted(s, c) && Legal(s, run) && forall i :: 0 <= i < |run| ==> run[i] != RestoreChannel(c)
    ensures MemberOfDeleted(After(s, run), c)
    decreases |run|
  {
    if run != [] {
      hide Page;
      assert MemberOfDeleted(Apply(s, run[0]), c);
      StuckUntilRestored(Apply(s, run[0]), run[1..], c);
    }
  }

  /** Fewer than a hundred of the user's channels come before this one. */
  predicate AmongFirst(memberships: set<nat>, c: nat) {
    |set d | d in memberships && d < c| < CHANNEL_ARRAY_MAX
  }

  lemma SelectedAmongFirst(memberships: set<nat>, selected: seq<nat>, c: nat)
    requires Selects(memberships, map[], selected) && c in memberships
    ensures c in selected <==> AmongFirst(memberships, c)
  {
    var before := set d | d in memberships && d < c;
    var chosen := IdSet(selected);
    SizeOfIncreasing(selected);
    IdSetMembers(selected);
    if c in selected {
      assert before <= chosen - {c};
      Rows.SubsetSize(before, chosen - {c});
    } else {
      assert chosen <= before;
      Rows.SubsetSize(chosen, before);
    }
  }

  /** A request is doomed exactly when the user belongs to a deleted channel that it names
      or, naming none, that is among the user's first hundred. */
  lemma DoomedExactly(channels: map<nat, Channel>, memberships: set<nat>, cursors: map<nat, nat>, selected: seq<nat>)
    requires ReadyFor(channels, memberships) && Selects(memberships, cursors, selected)
    ensures SomeDeleted(channels, selected) <==>
              exists c :: c in memberships && channels[c].deleted && (if cursors != map[] then c in cursors else AmongFirst(memberships, c))
  {
    hide AmongFirst;
    forall c | c in memberships
      ensures c in selected <==> if cursors != map[] then c in cursors else AmongFirst(memberships, c)
    {
      if cursors == map[] { SelectedAmongFirst(memberships, selected, c); }
    }
    if c :| c in memberships && channels[c].deleted && (if cursors != map[] then c in cursors else AmongFirst(memberships, c)) {
      var i :| 0 <= i < |selected| && selected[i] == c;
      assert SomeDeleted(channels, selected);
    }
    if SomeDeleted(channels, selected) {
      var i :| 0 <= i < |selected| && selected[i] in channels && channels[selected[i]].deleted;
      assert selected[i] in selected;
    }
  }

  /** For instance: join a channel, let it be deleted; a request for everything then selects
      just that channel and fails. */
  lemma DeletedChannelBlocksSync(selected: seq<nat>) returns (run: seq<Step>)
    ensures Legal(EMPTY, run) && ReadyFor(After(EMPTY, run).channels, After(EMPTY, run).memberships)
    ensures Selects(After(EMPTY, run).memberships, map[], selected) ==> SomeDeleted(After(EMPTY, run).channels, selected)
  {
    run := [NewChannel(1), Join(1), DeleteChannel(1)];
    var s1 := Apply(EMPTY, NewChannel(1));
    var s2 := Apply(s1, Join(1));
    var s3 := Apply(s2, DeleteChannel(1));
    assert run[1..] == [Join(1), DeleteChannel(1)] && run[1..][1..] == [DeleteChannel(1)] && run[1..][1..][1..] == [];
    assert After(EMPTY, run) == s3;
    if Selects(s3.memberships, map[], selected) {
      assert (set d | d in s3.memberships && d < 1) == {};
      SelectedAmongFirst(s3.memberships, selected, 1);
      var i :| 0 <= i < |selected| && selected[i] == 1;
    }
  }

  lemma JoinPages(channels: map<nat, Channel>, selected: seq<nat>, cursors: map<nat, nat>, next: map<nat, nat>, after: map<nat, nat>,
                  received: seq<seq<Message>>, pages: seq<seq<Message>>)
    requires Servable(channels, selected) && |received| == |pages| == |selected|
    requires forall i :: 0 <= i < |selected| ==> UnseenIn(channels, cursors, selected[i]) == received[i] + UnseenIn(channels, next, selected[i])
    requires forall i :: 0 <= i < |selected| ==> UnseenIn(channels, next, selected[i]) == pages[i] + UnseenIn(channels, after, selected[i])
    ensures forall i :: 0 <= i < |selected| ==> UnseenIn(channels, cursors, selected[i]) == Joined(received, pages)[i] + UnseenIn(channels, after, selected[i])
  {
    hide UnseenIn, Joined;
    forall i | 0 <= i < |selected|
      ensures UnseenIn(channels, cursors, selected[i]) == Joined(received, pages)[i] + UnseenIn(channels, after, selected[i])
    {
      assert received[i] + (pages[i] + UnseenIn(channels, after, selected[i])) == received[i] + pages[i] + UnseenIn(channels, after, selected[i]);
    }
  }

  // ----- the publishing service -----

  datatype PublishError = NotFound | Forbidden | EncryptionFailed

  /** The sender's earlier message with the same client id, if one was given. */
  function Duplicate(messages: seq<Message>, sender: nat, clientId: Option<nat>): Option<Message> {
    if messages == [] || clientId.None? then None
    else if messages[0].sender == sender && messages[0].clientId == clientId then Some(messages[0])
    else Duplicate(messages[1..], sender, clientId)
  }

  class Publisher {
    var channels: map<nat, Channel>

    ghost predicate Valid()
      reads this
    {
      forall c :: c in channels ==> ChannelOk(channels[c])
    }

    constructor ()
      ensures Valid() && channels == map[]
    {
      channels := map[];
    }

    /** One publish under the channel lock. A repeated client id returns the first message;
        a failed encryption rolls the assigned number back. */
    method Publish(c: nat, sender: nat, clientId: Option<nat>, allowed: bool, encrypts: bool)
      returns (r: Result<Message, PublishError>)
      requires Valid()
      modifies this
      ensures Valid()
      ensures r.Err? ==> channels == old(channels)
      ensures (c !in old(channels) || old(channels)[c].deleted) ==> r == Err(NotFound)
      ensures c in old(channels) && !old(channels)[c].deleted && !allowed ==> r == Err(Forbidden)
      ensures c in old(channels) && !old(channels)[c].deleted && allowed ==>
                match Duplicate(old(channels)[c].messages, sender, clientId)
                case Some(m) => r == Ok(m) && channels == old(channels)
                case None =>
                  if !encrypts then r == Err(EncryptionFailed)
                  else && r == Ok(Message(old(channels)[c].lastSeqId + 1, sender, clientId, false))
                       && channels == old(channels)[c := old(channels)[c].(lastSeqId := old(channels)[c].lastSeqId + 1, messages := old(channels)[c].messages + [r.value])]
    {
      if c !in channels || channels[c].deleted { return Err(NotFound); }
      if !allowed { return Err(Forbidden); }
      var ch := channels[c];
      var existing := Duplicate(ch.messages, sender, clientId);
      if existing.Some? { return Ok(existing.value); }
      var seqId := ch.lastSeqId + 1;
      if !encrypts { return Err(EncryptionFailed); }
      var m := Message(seqId, sender, clientId, false);
      channels := channels[c := ch.(lastSeqId := seqId, messages := ch.messages + [m])];
      r := Ok(m);
    }
  }

  /** Publishing again with the same client id adds nothing and returns the same message. */
  lemma {:induction false} RetryIsIdempotent(messages: seq<Message>, sender: nat, id: nat, m: Message)
    requires Duplicate(messages, sender, Some(id)).None? && m.sender == sender && m.clientId == Some(id)
    ensures Duplicate(messages + [m], sender, Some(id)) == Some(m)
  {
    if messages != [] {
      assert (messages + [m])[1..] == messages[1..] + [m];
      RetryIsIdempotent(messages[1..], sender, id, m);
    }
  }
}
