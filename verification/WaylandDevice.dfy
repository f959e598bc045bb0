/** The data-control device: the offers a compositor makes, the selection, and the type to read it in. */
module WaylandDevice {
  import opened Bytes
  import opened WaylandWire
  import opened WaylandConn
  import opened WaylandFraming

  type Mime = seq<byte>

  /** What an event means to the device: an offer is announced, one becomes the selection, an object
      says a type, or none of these. */
  datatype Meaning = Announce(id: u32) | Select(id: u32) | Says(id: u32, mime: Mime) | Nothing

  function MeaningOf(device: u32, ev: Event): Meaning {
    if ev.obj == device && ev.op == 0 then Announce(WordAt(ev.body, 0))
    else if ev.obj == device && ev.op == 1 then Select(WordAt(ev.body, 0))
    else if ev.op == 0 then Says(ev.obj, StrAt(ev.body, 0).0)
    else Nothing
  }

  // ----- what a history of events means -----

  /** The offer last selected, 0 if none. */
  function Selected(ms: seq<Meaning>): u32 {
    if ms == [] then 0
    else if ms[|ms| - 1].Select? then ms[|ms| - 1].id
    else Selected(ms[..|ms| - 1])
  }

  /** The event replaces the selection by another, or by none. */
  predicate Replaces(ms: seq<Meaning>, m: Meaning) {
    m.Select? && Selected(ms) != 0 && Selected(ms) != m.id
  }

  /** The selections replaced, in order. */
  function Replaced(ms: seq<Meaning>): seq<u32> {
    if ms == [] then []
    else
      var init, last := ms[..|ms| - 1], ms[|ms| - 1];
      Replaced(init) + if Replaces(init, last) then [Selected(init)] else []
  }

  /** The offers announced and not replaced, as the selection, since. */
  function Live(ms: seq<Meaning>): set<u32> {
    if ms == [] then {}
    else
      var init, last := ms[..|ms| - 1], ms[|ms| - 1];
      if last.Announce? then Live(init) + {last.id}
      else if Replaces(init, last) then Live(init) - {Selected(init)}
      else Live(init)
  }

  /** The types an object said since it was last announced. */
  function TypesOf(ms: seq<Meaning>, id: u32): seq<Mime> {
    if ms == [] then []
    else
      var init, last := ms[..|ms| - 1], ms[|ms| - 1];
      if last == Announce(id) then []
      else if last.Says? && last.id == id then TypesOf(init, id) + [last.mime]
      else TypesOf(init, id)
  }

  /** A conforming compositor selects only live offers, or none. */
  predicate Conforming(ms: seq<Meaning>) {
    ms == [] ||
      var init, last := ms[..|ms| - 1], ms[|ms| - 1];
      Conforming(init) && (last.Select? ==> last.id == 0 || last.id in Live(init))
  }

  /** What one more event does to each of these. */
  lemma OneMore(ms: seq<Meaning>, m: Meaning)
    ensures Selected(ms + [m]) == if m.Select? then m.id else Selected(ms)
    ensures Replaced(ms + [m]) == Replaced(ms) + if Replaces(ms, m) then [Selected(ms)] else []
    ensures Live(ms + [m]) == if m.Announce? then Live(ms) + {m.id}
                              else if Replaces(ms, m) then Live(ms) - {Selected(ms)} else Live(ms)
    ensures forall id :: TypesOf(ms + [m], id)
                      == if m == Announce(id) then []
                         else if m.Says? && m.id == id then TypesOf(ms, id) + [m.mime] else TypesOf(ms, id)
  {
    var all := ms + [m];
    assert all[..|all| - 1] == ms;
    hide Replaces;
  }

  // ----- what a conforming compositor can rely on -----

  lemma {:induction false} SelectionIsLive(ms: seq<Meaning>)
    requires Conforming(ms)
    ensures Selected(ms) == 0 || Selected(ms) in Live(ms)
  {
    if ms != [] {
      SelectionIsLive(ms[..|ms| - 1]);
    }
  }

  /** How often an id is announced, and how often, as the selection, replaced. */
  function Announcements(ms: seq<Meaning>, id: u32): nat {
    if ms == [] then 0
    else Announcements(ms[..|ms| - 1], id) + if ms[|ms| - 1] == Announce(id) then 1 else 0
  }

  function Replacements(ms: seq<Meaning>, id: u32): nat {
    multiset(Replaced(ms))[id]
  }

  /** Each announcement of an id lets it be replaced, and so destroyed, once: it has been as often as it was
      announced at most, and once less while it is live. */
  lemma {:induction false} ReplacedOncePerAnnouncement(ms: seq<Meaning>, id: u32)
    requires Conforming(ms)
    ensures Replacements(ms, id) + (if id in Live(ms) then 1 else 0) <= Announcements(ms, id)
  {
    if ms != [] {
      var init := ms[..|ms| - 1];
      ReplacedOncePerAnnouncement(init, id);
      SelectionIsLive(init);
      assert multiset(Replaced(ms))[id] == multiset(Replaced(init))[id]
          + if Replaces(init, ms[|ms| - 1]) && Selected(init) == id then 1 else 0;
    }
  }

  /** Event i replaces id as the selection. */
  predicate ReplacesAt(ms: seq<Meaning>, i: nat, id: u32)
    requires i < |ms|
  {
    Replaces(ms[..i], ms[i]) && Selected(ms[..i]) == id
  }

  lemma {:induction false} BecameLive(ms: seq<Meaning>, i: nat, j: nat, id: u32) returns (k: nat)
    requires i <= j <= |ms| && id !in Live(ms[..i]) && id in Live(ms[..j])
    ensures i <= k < j && ms[k] == Announce(id)
    decreases j
  {
    assert i < j && ms[..j][..j - 1] == ms[..j - 1];
    if id in Live(ms[..j - 1]) {
      k := BecameLive(ms, i, j - 1, id);
    } else {
      k := j - 1;
    }
  }

  lemma {:induction false} ConformingPrefix(ms: seq<Meaning>, i: nat)
    requires Conforming(ms) && i <= |ms|
    ensures Conforming(ms[..i])
    decreases |ms|
  {
    if i < |ms| {
      ConformingPrefix(ms[..|ms| - 1], i);
      assert ms[..|ms| - 1][..i] == ms[..i];
    } else {
      assert ms[..i] == ms;
    }
  }

  /** Between two times that an id is destroyed it is announced again. */
  lemma AnnouncedBetween(ms: seq<Meaning>, i: nat, j: nat, id: u32) returns (k: nat)
    requires Conforming(ms) && i < j < |ms| && ReplacesAt(ms, i, id) && ReplacesAt(ms, j, id)
    ensures i < k < j && ms[k] == Announce(id)
  {
    assert ms[..i + 1][..i] == ms[..i];
    ConformingPrefix(ms, j);
    SelectionIsLive(ms[..j]);
    k := BecameLive(ms, i + 1, j, id);
  }

  /** No id is announced a second time. */
  predicate AnnouncedOnce(ms: seq<Meaning>) {
    forall i, j | 0 <= i < j < |ms| && ms[i].Announce? && ms[j].Announce? :: ms[i].id != ms[j].id
  }

  predicate WasAnnounced(ms: seq<Meaning>, id: u32) {
    exists i | 0 <= i < |ms| :: ms[i] == Announce(id)
  }

  lemma {:induction false} LiveWereAnnounced(ms: seq<Meaning>, id: u32)
    requires id in Live(ms)
    ensures WasAnnounced(ms, id)
  {
    var init, last := ms[..|ms| - 1], ms[|ms| - 1];
    if last == Announce(id) {
      assert ms[|ms| - 1] == last;
    } else {
      LiveWereAnnounced(init, id);
      var i :| 0 <= i < |init| && init[i] == Announce(id);
      assert ms[i] == Announce(id);
    }
  }

  predicate NoRepeats<T(==)>(s: seq<T>) {
    forall i, j | 0 <= i < j < |s| :: s[i] != s[j]
  }

  lemma {:induction false} ReplacedWereAnnounced(ms: seq<Meaning>, id: u32)
    requires Conforming(ms) && id in Replaced(ms)
    ensures WasAnnounced(ms, id)
  {
    var init, last := ms[..|ms| - 1], ms[|ms| - 1];
    if id in Replaced(init) {
      ReplacedWereAnnounced(init, id);
    } else {
      SelectionIsLive(init);
      LiveWereAnnounced(init, id);
    }
    var i :| 0 <= i < |init| && init[i] == Announce(id);
    assert ms[i] == Announce(id);
  }

  lemma NewIsNotReplaced(ms: seq<Meaning>)
    requires ms != [] && Conforming(ms) && AnnouncedOnce(ms) && ms[|ms| - 1].Announce?
    ensures ms[|ms| - 1].id !in Replaced(ms[..|ms| - 1])
  {
    if ms[|ms| - 1].id in Replaced(ms[..|ms| - 1]) {
      ReplacedWereAnnounced(ms[..|ms| - 1], ms[|ms| - 1].id);
    }
  }

  /** So with no id announced twice each replaced selection is replaced once, and is then neither live nor
      selected. */
  lemma {:induction false} ReplacedOnce(ms: seq<Meaning>)
    requires Conforming(ms) && AnnouncedOnce(ms)
    ensures NoRepeats(Replaced(ms)) && forall id | id in Replaced(ms) :: id != 0 && id !in Live(ms) && id != Selected(ms)
  {
    if ms != [] {
      var init, last := ms[..|ms| - 1], ms[|ms| - 1];
      ReplacedOnce(init);
      SelectionIsLive(init);
      if last.Announce? {
        NewIsNotReplaced(ms);
      }
    }
  }

  /** Every offer that was ever selected is selected still, or has been replaced. */
  lemma {:induction false} SelectedOrReplaced(ms: seq<Meaning>, k: nat)
    requires k < |ms| && ms[k].Select? && ms[k].id != 0
    ensures ms[k].id == Selected(ms) || ms[k].id in Replaced(ms)
    decreases |ms|
  {
    if k < |ms| - 1 {
      SelectedOrReplaced(ms[..|ms| - 1], k);
    }
  }

  // ----- the events up to the answer -----

  function Meanings(device: u32, evs: seq<Event>): seq<Meaning> {
    seq(|evs|, i requires 0 <= i < |evs| => MeaningOf(device, evs[i]))
  }

  predicate Answers(ev: Event, cb: u32) {
    ev.obj == cb && ev.op == 0
  }

  /** Events read one after another, what ended the reading, and what is still to be read. */
  datatype Exchange = Exchange(evs: seq<Event>, last: Outcome, io: Io)

  /** Reads until the event that answers cb, or until no more can be read. */
  function Until(io: Io, cb: u32): (r: Exchange)
    decreases |Stream(io)|
  {
    NextConserves(io);
    var (o, after) := Next(io);
    if !o.Got? || Answers(o.ev, cb) then Exchange([], o, after)
    else
      var more := Until(after, cb);
      more.(evs := [o.ev] + more.evs)
  }

  lemma UntilSteps(io: Io, cb: u32)
    requires Next(io).0.Got? && !Answers(Next(io).0.ev, cb)
    ensures var more := Until(Next(io).1, cb); Until(io, cb) == more.(evs := [Next(io).0.ev] + more.evs)
    ensures |Stream(Next(io).1)| < |Stream(io)|
  {
    NextConserves(io);
    hide Next;
    hide Stream;
  }

  lemma UntilEnds(io: Io, cb: u32)
    requires !Next(io).0.Got? || Answers(Next(io).0.ev, cb)
    ensures Until(io, cb) == Exchange([], Next(io).0, Next(io).1)
  {
  }

  lemma NoneYet(device: u32)
    ensures Meanings(device, []) == [] && DestroyRequests([]) == []
  {
  }

  lemma MeaningsOfOneMore(device: u32, evs: seq<Event>, ev: Event)
    ensures Meanings(device, evs + [ev]) == Meanings(device, evs) + [MeaningOf(device, ev)]
  {
    hide MeaningOf;
  }

  /** When the compositor's events before its answer arrive, they are exactly the ones read, and what
      follows the answer is kept. */
  lemma {:induction false} UntilTheAnswer(io: Io, cb: u32, evs: seq<Event>, answer: Event, rest: seq<byte>)
    requires AllArrive(io.feed) && Stream(io) == EncodeAll(evs) + (Encode(answer) + rest)
    requires forall e | e in evs :: FitsSize(e) && !IsDisplayError(e) && !Answers(e, cb)
    requires FitsSize(answer) && !IsDisplayError(answer) && Answers(answer, cb)
    ensures Until(io, cb).evs == evs && Until(io, cb).last == Got(answer) && Stream(Until(io, cb).io) == rest
    decreases |evs|
  {
    var tail := Encode(answer) + rest;
    if evs == [] {
      Regrouped(tail, [], []);
      NextIsHead(io, answer, rest);
    } else {
      assert evs[0] in evs;
      Regrouped(Encode(evs[0]), EncodeAll(evs[1..]), tail);
      NextIsHead(io, evs[0], EncodeAll(evs[1..]) + tail);
      UntilTheAnswer(Next(io).1, cb, evs[1..], answer, rest);
      hide Next;
      hide Stream;
      hide EncodeAll;
      hide Encode;
      assert [evs[0]] + evs[1..] == evs;
    }
  }

  /** The live offers, each with the types it said. */
  predicate Tracks(offers: map<u32, seq<Mime>>, ms: seq<Meaning>) {
    offers.Keys == Live(ms) && forall id | id in offers :: offers[id] == TypesOf(ms, id)
  }

  lemma TracksNone()
    ensures Tracks(map[], [])
  {
  }

  /** The offers after one more event. */
  function OffersAfter(offers: map<u32, seq<Mime>>, ms: seq<Meaning>, m: Meaning): map<u32, seq<Mime>> {
    match m
    case Announce(id) => offers[id := []]
    case Select(id) => if Replaces(ms, m) then offers - {Selected(ms)} else offers
    case Says(id, mime) => if id in offers then offers[id := offers[id] + [mime]] else offers
    case Nothing => offers
  }

  lemma TracksOneMore(offers: map<u32, seq<Mime>>, ms: seq<Meaning>, m: Meaning)
    requires Tracks(offers, ms)
    ensures Tracks(OffersAfter(offers, ms, m), ms + [m])
  {
    OneMore(ms, m);
    hide Selected;
    hide Live;
    hide TypesOf;
    var after := OffersAfter(offers, ms, m);
    assert after.Keys == Live(ms + [m]);
    forall id | id in after ensures after[id] == TypesOf(ms + [m], id) {
    }
  }

  // ----- the type to read -----

  /** The first type wanted that is offered, nothing when none is; a type is not empty. */
  predicate IsFirstWanted(wanted: seq<Mime>, offered: seq<Mime>, mime: Mime) {
    if mime == [] then forall w | w in wanted :: w == [] || w !in offered
    else exists i | 0 <= i < |wanted| :: wanted[i] == mime && mime in offered
                                          && forall j | 0 <= j < i :: wanted[j] == [] || wanted[j] !in offered
  }

  /** The types the selection is offered in. */
  function Offered(ms: seq<Meaning>): seq<Mime> {
    if Selected(ms) != 0 && Selected(ms) in Live(ms) then TypesOf(ms, Selected(ms)) else []
  }

  /** With a conforming compositor the selection is none, or an offer that is live, with exactly the types
      it said since it was announced, in order. */
  lemma SelectionIsOffered(offers: map<u32, seq<Mime>>, ms: seq<Meaning>)
    requires Tracks(offers, ms) && Conforming(ms)
    ensures Selected(ms) == 0
         || (Selected(ms) in offers && offers[Selected(ms)] == TypesOf(ms, Selected(ms)) && Offered(ms) == offers[Selected(ms)])
  {
    SelectionIsLive(ms);
  }

  lemma NothingWanted(wanted: seq<Mime>, offered: seq<Mime>)
    ensures IsFirstWanted(wanted, [], []) && IsFirstWanted(wanted[..0], offered, [])
  {
  }

  lemma OneMoreWanted(wanted: seq<Mime>, i: nat, offered: seq<Mime>, mime: Mime)
    requires i < |wanted| && IsFirstWanted(wanted[..i], offered, mime)
    ensures IsFirstWanted(wanted[..i + 1], offered, if mime == [] && wanted[i] in offered then wanted[i] else mime)
  {
    var more := wanted[..i + 1];
    assert more[i] == wanted[i] && forall k | 0 <= k < i :: more[k] == wanted[..i][k];
    if mime != [] {
      var k :| 0 <= k < i && wanted[..i][k] == mime && forall j | 0 <= j < k :: wanted[..i][j] == [] || wanted[..i][j] !in offered;
      assert more[k] == mime;
    }
  }

  lemma FirstWantedIsUnique(wanted: seq<Mime>, offered: seq<Mime>, a: Mime, b: Mime)
    requires IsFirstWanted(wanted, offered, a) && IsFirstWanted(wanted, offered, b)
    ensures a == b
  {
  }

  // ----- the device -----

  function DestroyRequest(id: u32): Sent {
    Sent(Encode(Event(id, 1, [])), [])
  }

  function SyncRequest(cb: u32): Sent {
    Sent(Encode(Event(1, 0, PutU32(cb))), [])
  }

  function DestroyRequests(ids: seq<u32>): seq<Sent> {
    seq(|ids|, i requires 0 <= i < |ids| => DestroyRequest(ids[i]))
  }

  lemma RequestsForOneMore(ids: seq<u32>, id: u32)
    ensures DestroyRequests(ids + [id]) == DestroyRequests(ids) + [DestroyRequest(id)]
  {
    hide DestroyRequest;
  }

  /** The events evs lead from one history to the other, and the selections they replaced are, in order,
      the offers that the compositor was then asked to destroy, one request each. */
  predicate Handled(device: u32, from: seq<Meaning>, to: seq<Meaning>, evs: seq<Event>, asked: seq<Sent>, written: seq<Sent>) {
    && to == from + Meanings(device, evs)
    && Replaced(from) <= Replaced(to)
    && written == asked + DestroyRequests(Replaced(to)[|Replaced(from)|..])
  }

  lemma HandledNone(device: u32, ms: seq<Meaning>, asked: seq<Sent>)
    ensures Handled(device, ms, ms, [], asked, asked)
  {
    hide Replaced;
  }

  lemma HandledOneMore(device: u32, from: seq<Meaning>, to: seq<Meaning>, evs: seq<Event>, asked: seq<Sent>, written: seq<Sent>,
                       ev: Event)
    requires Handled(device, from, to, evs, asked, written)
    ensures var m := MeaningOf(device, ev);
            Handled(device, from, to + [m], evs + [ev], asked,
                    written + if Replaces(to, m) then [DestroyRequest(Selected(to))] else [])
  {
    var m := MeaningOf(device, ev);
    OneMore(to, m);
    MeaningsOfOneMore(device, evs, ev);
    var ids := Replaced(to)[|Replaced(from)|..];
    RequestsForOneMore(ids, Selected(to));
    hide Replaced;
    hide Replaces;
    hide Selected;
    hide Meanings;
    hide DestroyRequest;
    hide DestroyRequests;
    var more := if Replaces(to, m) then [Selected(to)] else [];
    assert (Replaced(to) + more)[|Replaced(from)|..] == ids + more;
    Regrouped(from, Meanings(device, evs), [m]);
    Regrouped(asked, DestroyRequests(ids), if Replaces(to, m) then [DestroyRequest(Selected(to))] else []);
  }

  /** history is what the events handled meant. */
  class Device {
    const conn: Conn
    const device: u32
    var offers: map<u32, seq<Mime>>
    var selection: u32
    var passedOn: seq<Event>
    ghost var history: seq<Meaning>

    /** The fields are what the history makes them. */
    ghost predicate Valid()
      reads this
    {
      selection == Selected(history) && Tracks(offers, history)
    }

    constructor (conn: Conn, device: u32)
      ensures Valid() && history == [] && passedOn == [] && this.conn == conn && this.device == device
    {
      TracksNone();
      this.conn, this.device := conn, device;
      offers, selection, history, passedOn := map[], 0, [], [];
    }

    /** Forgets an offer, and tells the compositor. */
    method DestroyOffer(id: u32)
      modifies `offers, conn`written
      ensures offers == old(offers) - {id}
      ensures conn.written == old(conn.written) + [DestroyRequest(id)]
    {
      offers := offers - {id};
      var _ := conn.Send(id, 1, [], -1);
    }

    /** Keeps track of offers and the selection, destroying the selection it replaces; any other event is
        passed on. */
    method Handle(ev: Event, listening: bool)
      requires Valid()
      modifies this, conn`written
      ensures Valid() && history == old(history) + [MeaningOf(device, ev)]
      ensures conn.written == old(conn.written) + if Replaces(old(history), MeaningOf(device, ev))
                                                  then [DestroyRequest(old(selection))] else []
      ensures passedOn == old(passedOn) + match MeaningOf(device, ev)
                                          case Nothing => if listening then [ev] else []
                                          case Says(id, _) => if listening && id !in old(offers) then [ev] else []
                                          case _ => []
    {
      ghost var m := MeaningOf(device, ev);
      OneMore(history, m);
      TracksOneMore(offers, history, m);
      hide Selected;
      hide Replaced;
      hide Tracks;
      hide Live;
      hide TypesOf;
      hide WordAt;
      hide StrAt;
      hide DestroyRequest;
      history := history + [m];
      if ev.obj == device && ev.op == 0 {
        offers := offers[WordAt(ev.body, 0) := []];
      } else if ev.obj == device && ev.op == 1 {
        var id := WordAt(ev.body, 0);
        if selection != 0 && selection != id {
          DestroyOffer(selection);
        }
        selection := id;
      } else if ev.op == 0 && ev.obj in offers {
        var mime := StrAt(ev.body, 0).0;
        offers := offers[ev.obj := offers[ev.obj] + [mime]];
      } else if listening {
        passedOn := passedOn + [ev];
      }
    }

    /** Asks for an answer and handles the events that come before it; done says that it came, and sent
        that it could be asked for. */
    method Roundtrip(listening: bool) returns (done: bool, sent: bool, ghost evs: seq<Event>)
      requires Valid()
      modifies this, conn
      ensures Valid() && conn.nextID == IdAfter(old(conn.nextID))
      ensures Handled(device, old(history), history, evs, old(conn.written) + [SyncRequest(old(conn.nextID))], conn.written)
      ensures sent ==> (var x := Until(old(conn.State()), old(conn.nextID));
                        evs == x.evs && conn.State() == x.io && (done <==> x.last.Got?))
      ensures !sent ==> !done && evs == [] && conn.State() == old(conn.State())
    {
      hide Next;
      hide Until;
      hide Stream;
      hide Encode;
      hide Selected;
      hide Replaced;
      hide Replaces;
      hide Live;
      hide TypesOf;
      hide MeaningOf;
      hide Handled;
      hide DestroyRequest;
      evs, done := [], false;
      var cb := conn.NewID();
      sent := conn.Send(1, 0, PutU32(cb), -1);
      ghost var asked, io := conn.written, conn.State();
      HandledNone(device, history, asked);
      if sent {
        Regrouped(Until(io, cb).evs, [], []);
        var going := true;
        while going
          invariant Valid() && conn.nextID == IdAfter(old(conn.nextID))
          invariant Handled(device, old(history), history, evs, asked, conn.written)
          invariant going ==> var more := Until(conn.State(), cb); Until(io, cb) == more.(evs := evs + more.evs)
          invariant !going ==> Until(io, cb).evs == evs && Until(io, cb).io == conn.State()
          invariant done <==> !going && Until(io, cb).last.Got?
          decreases going, |Stream(conn.State())|
        {
          ghost var now, before := conn.State(), history;
          var o := conn.NextEvent();
          if !o.Got? || (o.ev.obj == cb && o.ev.op == 0) {
            UntilEnds(now, cb);
            Regrouped([], evs, []);
            done, going := o.Got?, false;
          } else {
            UntilSteps(now, cb);
            Regrouped(evs, [o.ev], Until(conn.State(), cb).evs);
            HandledOneMore(device, old(history), history, evs, asked, conn.written, o.ev);
            Handle(o.ev, listening);
            evs := evs + [o.ev];
          }
        }
      }
    }

    /** The type to read the selection in: the first one wanted that it is offered in. */
    method ChooseType(wanted: seq<Mime>) returns (mime: Mime)
      requires Valid()
      ensures IsFirstWanted(wanted, Offered(history), mime)
    {
      NothingWanted(wanted, Offered(history));
      hide IsFirstWanted;
      hide Live;
      hide TypesOf;
      hide Selected;
      mime := [];
      if selection == 0 {
        return;
      }
      var offered := if selection in offers then offers[selection] else [];
      var i := 0;
      while i < |wanted|
        invariant 0 <= i <= |wanted|
        invariant IsFirstWanted(wanted[..i], offered, mime)
      {
        var j := 0;
        ghost var before := mime;
        while j < |offered|
          invariant 0 <= j <= |offered|
          invariant mime == if before == [] && wanted[i] in offered[..j] then wanted[i] else before
        {
          if offered[j] == wanted[i] && mime == [] {
            mime := wanted[i];
          }
          j := j + 1;
        }
        assert offered[..j] == offered;
        OneMoreWanted(wanted, i, offered, before);
        i := i + 1;
      }
      assert wanted[..i] == wanted;
    }
  }
}
