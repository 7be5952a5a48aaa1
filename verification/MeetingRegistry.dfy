/** Which session serves which meeting, and what tearing one down may touch.

    A method is what happens between two suspension points of the channel. A departure call is split at
    its network request: asking is one step, noting the answer another. */
module MeetingRegistry {
  import opened Wrappers
  import S = Stabilizer
  import opened MeetingSession
  import M = Membership

  const EVIDENCE_MEETING_ENDED := "meeting_ended"
  const ABSENCE_EVIDENCE := "120004"

  /** One activity of a pushed envelope and the meeting it belongs to, if that is known. */
  datatype Item = Item(meetingId: Option<string>, event: Event)

  predicate Activities(items: seq<Item>) {
    forall k :: 0 <= k < |items| ==> Incoming(items[k].event)
  }

  /** The events of one meeting, in the order of the envelope. */
  function EventsOf(items: seq<Item>, id: string): (events: seq<Event>)
    requires Activities(items)
    ensures AllIncoming(events)
  {
    if items == [] then []
    else
      var item := items[|items| - 1];
      EventsOf(items[..|items| - 1], id) + if item.meetingId == Some(id) then [item.event] else []
  }

  /** The events of a meeting are those whose item names it, in order, however the envelope is split. */
  lemma {:induction false} EventsOfSplit(a: seq<Item>, b: seq<Item>, id: string)
    requires Activities(a + b) && Activities(a) && Activities(b)
    ensures EventsOf(a + b, id) == EventsOf(a, id) + EventsOf(b, id)
    ensures |a| == 1 ==> EventsOf(a, id) == if a[0].meetingId == Some(id) then [a[0].event] else []
  {
    if |a| == 1 {
      assert a[..|a| - 1] == [] && EventsOf([], id) == [];
    }
    if b == [] {
      assert a + b == a;
    } else {
      var front := b[..|b| - 1];
      assert (a + b)[..|a + b| - 1] == a + front;
      assert forall k :: 0 <= k < |a + front| ==> (a + front)[k] == (a + b)[k];
      EventsOfSplit(a, front, id);
    }
  }

  /** Groups an envelope by meeting. */
  method Grouped(items: seq<Item>) returns (groups: map<string, seq<Event>>)
    requires Activities(items)
    ensures forall id :: EventsOf(items, id) == if id in groups then groups[id] else []
  {
    groups := map[];
    for k := 0 to |items|
      invariant forall id :: EventsOf(items[..k], id) == if id in groups then groups[id] else []
    {
      assert items[..k + 1][..k] == items[..k];
      if items[k].meetingId.Some? {
        var id := items[k].meetingId.value;
        groups := groups[id := (if id in groups then groups[id] else []) + [items[k].event]];
      }
    }
    assert items[..|items|] == items;
  }

  lemma DepartedOnce(l: Life, joined: bool)
    requires Ok(l)
    ensures var l' := Do(l, joined, Depart); Ok(l') && (joined ==> l'.left && l'.departures == 1)
  {
  }

  class MeetingRegistry {
    var sessions: map<string, Session>
    /** The session a user follows a meeting through. */
    var follow: map<(string, string), Session>
    /** The seat accounting. */
    var books: M.Books
    /** The meetings the platform was asked to take the bot out of. */
    var asked: seq<string>

    ghost var all: set<Session>        // every session ever made

    /** A session is registered exactly as long as it is open, under its own meeting; a user follows a
        meeting only through its registered session. */
    ghost predicate Routed()
      reads this, all
    {
      && (forall s :: s in all ==> (!s.closed <==> s.meetingId in sessions && sessions[s.meetingId] == s))
      && (forall id :: id in sessions ==> sessions[id] in all && sessions[id].meetingId == id)
      && (forall key :: key in follow ==> key.1 in sessions && follow[key] == sessions[key.1])
    }

    ghost predicate Valid()
      reads this, all
    {
      Routed() && M.Balanced(books) && forall s :: s in all ==> Ok(s.View())
    }

    constructor ()
      ensures Valid() && sessions == map[] && follow == map[] && books == M.NO_BOOKS && asked == [] && all == {}
    {
      sessions, follow, books, asked, all := map[], map[], M.NO_BOOKS, [], {};
      new;
      M.SeatsConserved([]);
    }

    /** The follow entries without a session. */
    ghost function Unfollowed(s: Session): map<(string, string), Session>
      reads this`follow
    {
      map key | key in follow && follow[key] != s :: follow[key]
    }

    ghost function Unregistered(s: Session): map<string, Session>
      reads this`sessions
    {
      if s.meetingId in sessions && sessions[s.meetingId] == s then sessions - {s.meetingId} else sessions
    }

    /** Unregisters a session by identity: one that was superseded does not evict its replacement. */
    method Forget(s: Session)
      modifies this`sessions, this`follow
      ensures sessions == old(Unregistered(s)) && follow == old(Unfollowed(s))
      ensures forall id :: id in sessions <==> id in old(sessions) && !(id == s.meetingId && old(sessions)[id] == s)
      ensures forall id :: id in sessions ==> sessions[id] == old(sessions)[id]
      ensures forall key :: key in follow <==> key in old(follow) && old(follow)[key] != s
      ensures forall key :: key in follow ==> follow[key] == old(follow)[key]
    {
      if s.meetingId in sessions && sessions[s.meetingId] == s {
        sessions := sessions - {s.meetingId};
      }
      var todo := follow.Keys;
      while todo != {}
        invariant todo <= old(follow).Keys
        invariant forall key :: key in follow <==> key in old(follow) && (key in todo || old(follow)[key] != s)
        invariant forall key :: key in follow ==> follow[key] == old(follow)[key]
        invariant sessions == old(Unregistered(s))
        decreases |todo|
      {
        var key :| key in todo;
        todo := todo - {key};
        if key in follow && follow[key] == s {
          follow := follow - {key};
        }
      }
    }

    /** `dispose`, and the first half of `leave` and `retire`. Only the first teardown of a session does
        anything, and it touches no other session. */
    method Teardown(s: Session, reason: string)
      requires Valid() && s in all
      modifies this`sessions, this`follow, s
      ensures Valid() && s.closed && s.View() == Do(old(s.View()), s.joined, Close(reason)) && s.left == old(s.left)
      ensures sessions == if old(s.closed) then old(sessions) else old(sessions) - {s.meetingId}
      ensures follow == if old(s.closed) then old(follow) else old(Unfollowed(s))
    {
      hide Session.View, Ok, M.Balanced, Do;
      if s.closed {
        s.Flags();
        DoKeeps(s.View(), s.joined, Close(reason));
        return;
      }
      s.Close(reason);
      Forget(s);
    }

    /** Registers a session for a meeting, disposing the one it replaces. No other session is touched and
        nobody departs. */
    method NewSession(id: string, joined: bool, window: real, maxQueued: int) returns (s: Session)
      requires Valid()
      modifies this`sessions, this`follow, this`all, sessions.Values
      ensures Valid() && fresh(s) && all == old(all) + {s}
      ensures s.meetingId == id && s.joined == joined && s.View() == NewLife(window, maxQueued) && !s.closed
      ensures sessions == old(sessions)[id := s]
      ensures id in old(sessions) ==>
        var x := old(sessions)[id];
        x.View() == Do(old(x.View()), x.joined, Close("disposed")) && follow == old(Unfollowed(sessions[id]))
      ensures id !in old(sessions) ==> follow == old(follow)
      ensures forall x :: x in old(all) && (id !in old(sessions) || x != old(sessions)[id]) ==> x.View() == old(x.View())
    {
      hide Session.View, Ok, M.Balanced, Do;
      if id in sessions {
        Teardown(sessions[id], "disposed");
      }
      s := new Session(id, joined, window, maxQueued);
      Register(s);
    }

    method Register(s: Session)
      requires Valid() && s !in all && s.meetingId !in sessions && !s.closed && Ok(s.View())
      modifies this`sessions, this`all
      ensures Valid() && sessions == old(sessions)[s.meetingId := s] && all == old(all) + {s}
    {
      hide Session.View, Ok, M.Balanced, Do;
      sessions := sessions[s.meetingId := s];
      all := all + {s};
    }

    // ---- entry points, after their last suspension ---------------------------------------------------

    /** A join was answered with a meeting id: the seat is taken and the session registered. */
    method Joined(id: string, now: real, window: real, maxQueued: int) returns (s: Session)
      requires Valid() && id != ""
      modifies this`sessions, this`follow, this`all, this`books, sessions.Values
      ensures Valid() && fresh(s) && s.meetingId == id && s.joined && !s.closed
      ensures sessions == old(sessions)[id := s] && all == old(all) + {s}
      ensures books == M.Added(old(books), id, now) && id in books.seats && !books.seats[id].unresolved
      ensures forall x :: x in old(all) && x.meetingId != id ==> x.View() == old(x.View())
    {
      hide Session.View, Ok, M.Balanced, Do;
      M.ApplyBalanced(books, M.Add(id, now));
      books := M.Added(books, id, now);
      s := NewSession(id, true, window, maxQueued);
    }

    /** A user's active meeting was found: an existing session is shared, whoever made it, or a new one
        registered. */
    method FollowMeeting(user: string, id: string, window: real, maxQueued: int) returns (s: Session)
      requires Valid()
      modifies this`sessions, this`follow, this`all
      ensures Valid() && s in all && s.meetingId == id && !s.closed
      ensures sessions == old(sessions)[id := s] && follow == old(follow)[(user, id) := s]
      ensures id in old(sessions) ==> s == old(sessions)[id] && all == old(all)
      ensures id !in old(sessions) ==> fresh(s) && !s.joined && all == old(all) + {s}
      ensures forall x :: x in old(all) ==> x.View() == old(x.View())
    {
      hide Session.View, Ok, M.Balanced, Do;
      if (user, id) in follow {
        return follow[(user, id)];
      }
      if id in sessions {
        s := sessions[id];
      } else {
        s := new Session(id, false, window, maxQueued);
        Register(s);
      }
      follow := follow[(user, id) := s];
    }

    // ---- activity ------------------------------------------------------------------------------------

    method DeliverGroup(id: string, events: seq<Event>, now: real)
      requires Valid() && AllIncoming(events)
      modifies this`books, sessions.Values
      ensures Valid() && forall x :: x in all ==> x.closed == old(x.closed)
      ensures books == if id in sessions then M.Touched(old(books), id, now) else old(books)
      ensures forall x :: x in all ==>
        x.View() == if x.meetingId != id then old(x.View()) else Do(old(x.View()), x.joined, Ingest(events))
    {
      hide Session.View, Ok, M.Balanced, Do, M.Touched, AllIncoming;
      forall x | x in all && x.closed
        ensures Do(x.View(), x.joined, Ingest(events)) == x.View()
      {
        x.Flags();
        DoKeeps(x.View(), x.joined, Ingest(events));
      }
      if id in sessions {
        TouchBooks(id, now);
        sessions[id].Ingest(events);
      }
    }

    method TouchBooks(id: string, now: real)
      requires M.Balanced(books)
      modifies this`books
      ensures M.Balanced(books) && books == M.Touched(old(books), id, now)
    {
      M.ApplyBalanced(books, M.Touch(id, now));
      books := M.Touched(books, id, now);
    }

    /** Every session receives exactly the events of its own meeting, in order; a closed one takes none. */
    method HandleActivity(items: seq<Item>, now: real)
      requires Valid() && Activities(items)
      modifies this`books, sessions.Values
      ensures Valid()
      ensures forall x :: x in all ==>
        x.View() == Do(old(x.View()), x.joined, Ingest(EventsOf(items, x.meetingId)))
      ensures books.seats.Keys == old(books).seats.Keys && books.released == old(books).released
    {
      hide Session.View, Ok, M.Balanced, Do, AllIncoming;
      var groups := Grouped(items);
      var todo := groups.Keys;
      while todo != {}
        invariant Valid() && todo <= groups.Keys
        invariant forall x :: x in all ==>
          x.View() == if x.meetingId in todo || x.meetingId !in groups then old(x.View())
            else Do(old(x.View()), x.joined, Ingest(EventsOf(items, x.meetingId)))
        invariant books.seats.Keys == old(books).seats.Keys && books.released == old(books).released
        decreases |todo|
      {
        var id :| id in todo;
        todo := todo - {id};
        assert AllIncoming(groups[id]) by { assert groups[id] == EventsOf(items, id); }
        DeliverGroup(id, groups[id], now);
      }
      forall x | x in all && x.meetingId !in groups
        ensures x.View() == Do(old(x.View()), x.joined, Ingest(EventsOf(items, x.meetingId)))
      {
        DoKeeps(x.View(), x.joined, Ingest(EventsOf(items, x.meetingId)));
      }
    }

    // ---- teardown ------------------------------------------------------------------------------------

    /** The departure call, unless another session is registered for the meeting. In terms of sessions:
        it is sent exactly when no session but the requester is open for the meeting. */
    method AskToLeave(id: string, requester: Session?) returns (sent: bool)
      requires Valid()
      modifies this`asked
      ensures Valid()
      ensures sent <==> forall x :: x in all && !x.closed && x.meetingId == id ==> x == requester
      ensures asked == if sent then old(asked) + [id] else old(asked)
    {
      hide Session.View, Ok, M.Balanced, Do;
      if id in sessions && sessions[id] != requester {
        return false;
      }
      asked := asked + [id];
      return true;
    }

    /** The answer to a departure call. */
    method NoteDepartureOutcome(id: string, answer: Option<M.Answer>)
      requires Valid()
      modifies this`books
      ensures Valid() && books == M.Noted(old(books), id, answer)
    {
      hide Session.View, Ok, M.Balanced, Do;
      M.ApplyBalanced(books, M.Note(id, answer));
      books := M.Noted(books, id, answer);
    }

    /** `leave` and `retire`, up to the departure call. The platform is asked at most once per session,
        and only when no session serves the meeting any more. */
    method Retire(s: Session, reason: string, depart: bool) returns (sent: bool)
      requires Valid() && s in all
      modifies this`sessions, this`follow, this`asked, s
      ensures Valid() && s.closed
      ensures var l := Do(old(s.View()), s.joined, Close(reason));
        s.View() == if depart then Do(l, s.joined, Depart) else l
      ensures sessions == if old(s.closed) then old(sessions) else old(sessions) - {s.meetingId}
      ensures follow == if old(s.closed) then old(follow) else old(Unfollowed(s))
      ensures sent <==> depart && s.joined && !old(s.left) && s.meetingId !in sessions
      ensures asked == if sent then old(asked) + [s.meetingId] else old(asked)
    {
      hide Session.View, Ok, M.Balanced, Do;
      Teardown(s, reason);
      sent := false;
      if depart {
        sent := DepartOnce(s);
      }
    }

    method DepartOnce(s: Session) returns (sent: bool)
      requires Valid() && s in all && s.closed
      modifies this`asked, s
      ensures Valid() && s.closed && s.View() == Do(old(s.View()), s.joined, Depart)
      ensures sent <==> s.joined && !old(s.left) && s.meetingId !in sessions
      ensures asked == if sent then old(asked) + [s.meetingId] else old(asked)
    {
      hide Session.View, Ok, M.Balanced, Do;
      var departs := s.BeginDeparture();
      if !departs {
        return false;
      }
      sent := AskToLeave(s.meetingId, s);
      assert s.meetingId in sessions ==> sessions[s.meetingId] != s && !sessions[s.meetingId].closed;
    }

    /** The answer to a session's own departure call: it is noted for the seat, and a failure is reported
        to the session, closed as it is. No answer means the request was not sent. */
    method DepartAnswered(s: Session, answer: Option<M.Answer>, code: nat)
      requires Valid() && s in all
      modifies this`books, s
      ensures Valid() && books == M.Noted(old(books), s.meetingId, answer)
      ensures s.View() ==
        if answer.Some? && !answer.value.ok then Do(old(s.View()), s.joined, Report(code)) else old(s.View())
    {
      hide Session.View, Ok, M.Balanced, Do, M.Noted;
      NoteDepartureOutcome(s.meetingId, answer);
      if answer.Some? && !answer.value.ok {
        s.Report(code);
      }
    }

    method Leave(s: Session) returns (sent: bool)
      requires Valid() && s in all
      modifies this`sessions, this`follow, this`asked, s
      ensures Valid() && s.closed && (s.joined ==> s.left && s.departures == 1)
      ensures sent <==> s.joined && !old(s.left) && s.meetingId !in sessions
      ensures asked == if sent then old(asked) + [s.meetingId] else old(asked)
      ensures forall id :: id in old(sessions) && old(sessions)[id] != s ==> id in sessions && sessions[id] == old(sessions)[id]
    {
      hide Session.View, Ok, M.Balanced, Do;
      ghost var l := s.View();
      DoKeeps(l, s.joined, Close("left"));
      DepartedOnce(Do(l, s.joined, Close("left")), s.joined);
      sent := Retire(s, "left", true);
      s.Flags();
    }

    /** A meeting ended: the seat is gone whether or not there is a session. */
    method NoteEnded(id: string)
      requires Valid()
      modifies this`books
      ensures Valid() && books == M.Released(old(books), id, "meeting_ended") && id !in books.seats
    {
      hide Session.View, Ok, M.Balanced, Do;
      M.ApplyBalanced(books, M.Release(id, EVIDENCE_MEETING_ENDED));
      books := M.Released(books, id, EVIDENCE_MEETING_ENDED);
    }

    /** After reconciliation the session that is registered by then is retired, with a departure call. */
    method RetireEnded(id: string) returns (sent: bool)
      requires Valid()
      modifies this`sessions, this`follow, this`asked, sessions.Values
      ensures Valid() && sessions == old(sessions) - {id}
      ensures forall x :: x in all && x.meetingId != id ==> x.View() == old(x.View())
      ensures id in old(sessions) ==>
        var x := old(sessions)[id];
        x.View() == Do(Do(old(x.View()), x.joined, Close("meeting_ended")), x.joined, Depart)
    {
      hide Session.View, Ok, M.Balanced, Do;
      if id !in sessions {
        assert sessions - {id} == sessions;
        return false;
      }
      sent := Retire(sessions[id], "meeting_ended", true);
    }

    /** A probe found the bot gone: the seat is given back and nobody is asked to leave. */
    method ProbeSaidAbsent(s: Session)
      requires Valid() && s in all
      modifies this`sessions, this`follow, this`asked, this`books, s
      ensures Valid() && s.closed && asked == old(asked)
      ensures books == M.Released(old(books), s.meetingId, "120004")
      ensures s.View() == Do(old(s.View()), s.joined, Close("no_longer_active"))
    {
      hide Session.View, Ok, M.Balanced, Do;
      M.ApplyBalanced(books, M.Release(s.meetingId, ABSENCE_EVIDENCE));
      books := M.Released(books, s.meetingId, ABSENCE_EVIDENCE);
      var _ := Retire(s, "no_longer_active", false);
    }

    method DisposeAt(id: string)
      requires Valid() && id in sessions
      modifies this`sessions, this`follow, sessions.Values
      ensures Valid() && sessions == old(sessions) - {id}
      ensures forall x :: x in all ==>
        x.View() == if x.meetingId == id then Do(old(x.View()), x.joined, Close("disposed")) else old(x.View())
      ensures forall x :: x in all && x.meetingId != id ==> x.closed == old(x.closed)
    {
      hide Session.View, Ok, M.Balanced, Do;
      ClosedAgain("disposed");
      Teardown(sessions[id], "disposed");
    }

    /** Closing a closed session changes nothing. */
    lemma ClosedAgain(reason: string)
      requires Valid()
      ensures forall x :: x in all && x.closed ==> Do(x.View(), x.joined, Close(reason)) == x.View()
    {
      hide Session.View, Ok, M.Balanced, Do;
      forall x | x in all && x.closed
        ensures Do(x.View(), x.joined, Close(reason)) == x.View()
      {
        x.Flags();
        DoKeeps(x.View(), x.joined, Close(reason));
      }
    }

    /** An open session is registered, so disposing the registered ones disposes all. */
    lemma OpenIsRegistered()
      requires Valid()
      ensures forall x :: x in all && !x.closed ==> x.meetingId in sessions
      ensures forall x :: x in all ==> Ok(x.View())
      ensures sessions == map[] ==> follow == map[]
    {
      hide Session.View, Ok;
    }

    /** Disposing everything departs no meeting and gives no seat back. */
    method DisposeAll()
      requires Valid()
      modifies this`sessions, this`follow, sessions.Values
      ensures Valid() && sessions == map[] && follow == map[]
      ensures forall x :: x in all ==>
        x.View() == Do(old(x.View()), x.joined, Close("disposed"))
    {
      hide Valid, Do, Session.View;
      OpenIsRegistered();
      ClosedAgain("disposed");
      var todo := sessions.Keys;
      while todo != {}
        invariant Valid() && todo <= old(sessions).Keys
        invariant forall id :: id in sessions <==> id in todo
        invariant forall id :: id in sessions ==> sessions[id] == old(sessions)[id]
        invariant forall x :: x in all && x.meetingId in todo ==> x.closed == old(x.closed)
        invariant forall x :: x in all ==>
          x.View() == if old(x.closed) || x.meetingId in todo then old(x.View()) else Do(old(x.View()), x.joined, Close("disposed"))
        decreases |todo|
      {
        var id :| id in todo;
        todo := todo - {id};
        DisposeAt(id);
      }
      assert sessions == map[];
      OpenIsRegistered();
    }

    /** The deadline of one seat is checked against the sessions registered at that moment, so it never
        takes the seat of a meeting that has one. */
    method ExpireSeat(id: string, maxAge: real, now: real)
      requires Valid()
      modifies this`books
      ensures Valid() && forall k :: k in old(books).seats && k in sessions ==> k in books.seats
      ensures books == M.Apply(old(books), M.Expire(id, maxAge, now, sessions.Keys))
    {
      hide Session.View, Ok, M.Balanced, Do;
      M.ApplyBalanced(books, M.Expire(id, maxAge, now, sessions.Keys));
      books := M.Apply(books, M.Expire(id, maxAge, now, sessions.Keys));
    }

    /** A settle timer of a session fires. */
    method TimerFires(s: Session, sentence: string)
      requires Valid() && s in all
      modifies s
      ensures Valid() && s.View() == Do(old(s.View()), s.joined, Settle(sentence))
    {
      hide Session.View, Ok, M.Balanced, Do;
      s.TimerFires(sentence);
    }
  }
}
