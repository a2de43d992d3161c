// What a plugin is told about one stream, and which sequences of calls are legal.
module StreamTrace {
  import opened Basics
  import opened HttpText

  // How a download is reported to have ended.
  datatype Reason = ResDone | NetworkErr | UserBreak

  datatype Event =
    | NewStream(mimetype: Text, seekable: bool, headers: Text, end: nat, ok: bool)
    | WriteReady(room: nat)
    | Write(offset: nat, data: seq<byte>, taken: int)
    | DestroyStream(reason: Reason)
    | UrlNotify(url: Text, reason: Reason)

  // How far a stream has come; data is what the plugin has accepted in full, room what it has asked for.
  datatype Phase =
    | Fresh
    | Declined                                    // newstream failed
    | Streaming(headers: Text, data: seq<byte>, room: nat)
    | Refused(data: seq<byte>)                    // a write was not accepted in full
    | Destroyed(data: seq<byte>)
    | Notified(delivered: Option<seq<byte>>)      // over; what was delivered if newstream succeeded
    | Illegal

  function Step(p: Phase, e: Event): Phase
  {
    match e
    case NewStream(_, _, h, _, ok) => if !p.Fresh? then Illegal else if ok then Streaming(h, [], 0) else Declined
    case WriteReady(room) => if p.Streaming? then p.(room := room) else Illegal
    case Write(offset, data, taken) =>
      if !p.Streaming? || offset != |p.data| || !(0 < |data| <= p.room) then Illegal
      else if taken == |data| then Streaming(p.headers, p.data + data, 0) else Refused(p.data)
    case DestroyStream(_) => if p.Streaming? || p.Refused? then Destroyed(p.data) else Illegal
    case UrlNotify(_, _) =>
      if p.Fresh? || p.Declined? then Notified(None) else if p.Destroyed? then Notified(Some(p.data)) else Illegal
  }

  function PhaseOf(t: seq<Event>): Phase
  {
    if t == [] then Fresh else Step(PhaseOf(t[..|t| - 1]), t[|t| - 1])
  }

  lemma PhaseAfter(t: seq<Event>, e: Event)
    ensures PhaseOf(t + [e]) == Step(PhaseOf(t), e)
  {
    assert (t + [e])[..|t|] == t;
  }

  predicate Opened(e: Event) { e.NewStream? && e.ok }
  predicate Accepted(e: Event) { e.Write? && e.taken == |e.data| }

  // The call before a write of data.
  predicate Fits(e: Event, data: seq<byte>) { e.WriteReady? && 0 < |data| <= e.room }

  // The bytes of the writes accepted in full.
  function DataOf(t: seq<Event>): seq<byte>
  {
    if t == [] then []
    else DataOf(t[..|t| - 1]) + (if Accepted(t[|t| - 1]) then t[|t| - 1].data else [])
  }

  // The rules themselves.  newstream is called once, first; destroystream exactly if it succeeded, and
  // urlnotify is the end.
  predicate Ordered(t: seq<Event>)
  {
    && (forall i :: 0 <= i < |t| && t[i].NewStream? ==> i == 0)
    && (forall i :: 0 <= i < |t| && t[i].WriteReady? ==> Opened(t[0]))
    && (forall i :: 0 <= i < |t| && t[i].DestroyStream? ==> Opened(t[0]))
    && (forall i, j :: 0 <= i < j < |t| && t[i].DestroyStream? ==> t[j].UrlNotify?)
    && (forall i :: 0 <= i < |t| && t[i].UrlNotify? ==> i == |t| - 1)
    && (forall i :: 0 <= i < |t| && t[i].UrlNotify? && Opened(t[0]) ==> i > 0 && t[i - 1].DestroyStream?)
  }

  // Each write follows a writeready that gave room for it, at the number of bytes accepted before; a
  // write not accepted in full is the last.
  predicate Written(t: seq<Event>)
  {
    && (forall i :: 0 <= i < |t| && t[i].Write? ==> i > 0 && t[i].offset == |DataOf(t[..i])| && Fits(t[i - 1], t[i].data))
    && (forall i, j :: 0 <= i < j < |t| && t[i].Write? && !Accepted(t[i]) ==> t[j].DestroyStream? || t[j].UrlNotify?)
  }

  predicate Lawful(t: seq<Event>)
  {
    Ordered(t) && Written(t)
  }

  predicate InStream(e: Event) { e.NewStream? || e.WriteReady? || e.Write? }

  // What a phase says about the calls so far.
  predicate Describes(p: Phase, t: seq<Event>)
  {
    && (p.Fresh? <==> t == [])
    && (t != [] ==> t[0].NewStream? || t[0].UrlNotify?)
    && (p.Declined? ==> |t| == 1 && t[0].NewStream? && !t[0].ok)
    && (p.Streaming? || p.Refused? || p.Destroyed? ==> t != [] && Opened(t[0]))
    && (p.Streaming? || p.Refused? || p.Destroyed? ==> p.data == DataOf(t))
    && (p.Streaming? ==> t[0].headers == p.headers)
    && (p.Streaming? ==> p.room == if t[|t| - 1].WriteReady? then t[|t| - 1].room else 0)
    && (p.Streaming? ==> forall i :: 0 <= i < |t| ==> t[i].NewStream? || t[i].WriteReady? || Accepted(t[i]))
    && (p.Refused? ==> t[|t| - 1].Write? && !Accepted(t[|t| - 1]) && forall i :: 0 <= i < |t| ==> InStream(t[i]))
    && (p.Destroyed? ==> t[|t| - 1].DestroyStream? && forall i :: 0 <= i < |t| - 1 ==> InStream(t[i]))
    && (t == [] || !Opened(t[0]) ==> DataOf(t) == [])
    && (p.Notified? <==> t != [] && t[|t| - 1].UrlNotify?)
    && (p.Notified? ==> p.delivered == if Opened(t[0]) then Some(DataOf(t)) else None)
  }

  // The same rules for one more call e after t.
  predicate NextLawful(t: seq<Event>, e: Event)
  {
    && (forall i :: 0 <= i < |t| ==> !t[i].UrlNotify?)
    && (e.NewStream? ==> t == [])
    && (e.WriteReady? ==> t != [] && Opened(t[0]))
    && (e.Write? ==> t != [] && e.offset == |DataOf(t)| && Fits(t[|t| - 1], e.data))
    && (!e.DestroyStream? && !e.UrlNotify? ==> forall i :: 0 <= i < |t| && t[i].Write? ==> Accepted(t[i]))
    && (e.DestroyStream? ==> t != [] && Opened(t[0]))
    && (!e.UrlNotify? ==> forall i :: 0 <= i < |t| ==> !t[i].DestroyStream?)
    && (e.UrlNotify? && t != [] && Opened(t[0]) ==> t[|t| - 1].DestroyStream?)
  }

  lemma LawfulPrefix(t: seq<Event>, e: Event)
    requires Lawful(t + [e])
    ensures Lawful(t)
  {
    hide DataOf;
    var u := t + [e];
    forall i | 0 <= i < |t|
      ensures t[i] == u[i] && t[..i] == u[..i]
    {
    }
    assert t != [] ==> u[0] == t[0];
    assert forall i :: 0 <= i < |t| ==> !t[i].UrlNotify?;
  }

  lemma LawfulLast(t: seq<Event>, e: Event)
    requires Lawful(t + [e])
    ensures NextLawful(t, e)
  {
    hide DataOf;
    var u := t + [e];
    assert u[|t|] == e && u[..|t|] == t;
    assert forall i :: 0 <= i < |t| ==> t[i] == u[i];
    assert t != [] ==> u[0] == t[0];
  }

  lemma OrderedExtends(t: seq<Event>, e: Event)
    requires Ordered(t) && NextLawful(t, e)
    ensures Ordered(t + [e])
  {
    hide DataOf, Fits;
    var u := t + [e];
    assert u[|t|] == e;
    assert forall i :: 0 <= i < |t| ==> u[i] == t[i];
    assert t != [] ==> u[0] == t[0];
  }

  lemma WrittenExtends(t: seq<Event>, e: Event)
    requires Written(t) && NextLawful(t, e)
    ensures Written(t + [e])
  {
    hide DataOf, Fits, Opened;
    var u := t + [e];
    assert u[|t|] == e && u[..|t|] == t;
    forall i | 0 <= i < |t|
      ensures u[i] == t[i] && u[..i] == t[..i]
    {
    }
  }

  lemma StepDescribes(p: Phase, t: seq<Event>, e: Event)
    requires !p.Illegal? && Describes(p, t)
    ensures Step(p, e) != Illegal <==> NextLawful(t, e)
    ensures Step(p, e) != Illegal ==> Describes(Step(p, e), t + [e])
  {
    var u := t + [e];
    assert u[..|t|] == t && u[|t|] == e;
    assert t != [] ==> u[0] == t[0];
    assert DataOf(u) == if Accepted(e) then DataOf(t) + e.data else DataOf(t);
    hide DataOf;
    if t != [] {
      var last := t[|t| - 1];
      assert p.Notified? <==> last.UrlNotify?;
      assert p.Destroyed? ==> last.DestroyStream?;
      assert last == u[|t| - 1];
    } else {
      assert u == [e];
    }
  }

  lemma {:induction false} PhaseLawful(t: seq<Event>)
    ensures PhaseOf(t) != Illegal <==> Lawful(t)
    ensures PhaseOf(t) != Illegal ==> Describes(PhaseOf(t), t)
    decreases |t|
  {
    if t != [] {
      hide Ordered, Written, Describes, NextLawful, Step;
      var r, e := t[..|t| - 1], t[|t| - 1];
      assert t == r + [e];
      PhaseLawful(r);
      if Lawful(t) {
        LawfulPrefix(r, e);
        LawfulLast(r, e);
      }
      if PhaseOf(r) != Illegal {
        StepDescribes(PhaseOf(r), r, e);
        if NextLawful(r, e) {
          OrderedExtends(r, e);
          WrittenExtends(r, e);
        }
      }
    }
  }
}
