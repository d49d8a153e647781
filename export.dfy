/** Export of a snapshot as an iCalendar document (the VEVENT properties of
    section 3.6.1 of RFC 5545), kept as a list of entry records rather than
    as the text the library serialises. */
module IcsExport {
  import opened CalendarTypes

  /** Document-level properties, the same for every export. */
  const Version: string := "2.0"
  const ProdId: string := "yet_another_calendar"

  /** A point in time expressed in a named zone: `astimezone` keeps the
      instant and changes only the zone it is written in. */
  datatype ZonedTime = ZonedTime(instant: Instant, zone: string)

  /** The decimal text of a digit. */
  function DigitChar(d: int): char
    requires 0 <= d < 10
  {
    "0123456789"[d]
  }

  /** The decimal text of a natural number, as Python's `str` writes it. */
  function NatText(n: nat): (s: string)
    ensures 0 < |s| && (n < 10 <==> |s| == 1)
    ensures forall k :: 0 <= k < |s| ==> '0' <= s[k] <= '9'
  {
    if n < 10 then [DigitChar(n)] else NatText(n / 10) + [DigitChar(n % 10)]
  }

  /** The text of a webinar id, which is what the `uid` property holds. */
  function IdText(n: int): (s: string)
    ensures 0 < |s|
    ensures s[0] == '-' <==> n < 0
  {
    if n < 0 then "-" + NatText(-n) else NatText(n)
  }

  /** Different numbers have different decimal texts. */
  lemma {:induction false} NatTextInjective(a: nat, b: nat)
    requires NatText(a) == NatText(b)
    ensures a == b
  {
    if a >= 10 && b >= 10 {
      var sa, sb := NatText(a), NatText(b);
      assert sa[..|sa| - 1] == NatText(a / 10);
      assert sb[..|sb| - 1] == NatText(b / 10);
      NatTextInjective(a / 10, b / 10);
      assert "0123456789"[a % 10] == sa[|sa| - 1] == sb[|sb| - 1] == "0123456789"[b % 10];
    } else if a < 10 && b < 10 {
      assert "0123456789"[a] == NatText(a)[0] == NatText(b)[0] == "0123456789"[b];
    }
  }

  /** Different webinar ids give different `uid` texts. */
  lemma IdTextInjective(a: int, b: int)
    requires IdText(a) == IdText(b)
    ensures a == b
  {
    if a < 0 && b < 0 {
      assert IdText(a)[1..] == NatText(-a);
      assert IdText(b)[1..] == NatText(-b);
      NatTextInjective(-a, -b);
    } else if a >= 0 && b >= 0 {
      NatTextInjective(a, b);
    }
  }

  /** Whether `s` begins with `prefix`. */
  predicate StartsWith(s: string, prefix: string) {
    |prefix| <= |s| && s[..|prefix|] == prefix
  }

  /** One VEVENT: summary, location, dtstart, dtend, dtstamp, uid, description. */
  datatype Entry = Entry(
    summary: string,
    location: Option<string>,
    dtstart: ZonedTime,
    dtend: ZonedTime,
    dtstamp: ZonedTime,
    uid: string,
    description: Option<string>)

  /** A VCALENDAR with its version, product identifier and events in the
      order they were added. */
  datatype Document = Document(version: string, prodid: string, events: seq<Entry>)

  /** One calendar event for a lesson; `now` is the clock reading used as
      the creation stamp, which the library writes in UTC. The description is set only when it is present
      and non-empty (the truthiness test of the source). */
  function CreateIcsEvent(title: string, startsAt: Instant, endsAt: Instant, lessonId: string,
                          tz: string, now: Instant, description: Option<string>,
                          webinarUrl: Option<string>): (e: Entry)
    ensures e.summary == title && e.uid == lessonId && e.location == webinarUrl
    ensures e.dtstart.instant == startsAt && e.dtend.instant == endsAt && e.dtstamp.instant == now
    ensures e.dtstart.zone == tz && e.dtend.zone == tz && e.dtstamp.zone == "UTC"
    ensures e.description.Some? <==> description.Some? && description.value != ""
    ensures e.description.Some? ==> e.description == description
  {
    var desc := if description.Some? && description.value != "" then description else None;
    Entry(title, webinarUrl, ZonedTime(startsAt, tz), ZonedTime(endsAt, tz), ZonedTime(now, "UTC"),
          lessonId, desc)
  }

  /** A webinar is exported only when it has both a start and an end. */
  predicate HasTimes(w: Webinar) {
    w.startsAt.Some? && w.endsAt.Some?
  }

  /** The entry of an exportable webinar. */
  function NetologyEntry(w: Webinar, tz: string, now: Instant): (e: Entry)
    requires HasTimes(w)
    ensures e.summary == "Netology: " + w.title && e.uid == IdText(w.id)
    ensures e.location == w.webinarUrl && e.description == None
    ensures e.dtstart == ZonedTime(w.startsAt.value, tz) && e.dtend == ZonedTime(w.endsAt.value, tz)
  {
    CreateIcsEvent("Netology: " + w.title, w.startsAt.value, w.endsAt.value, IdText(w.id),
                   tz, now, None, w.webinarUrl)
  }

  /** The entry of a Modeus lesson. */
  function ModeusEntry(l: Lesson, tz: string, now: Instant): (e: Entry)
    ensures e.summary == "Modeus: " + l.name && e.uid == l.id && e.location == None
    ensures e.dtstart == ZonedTime(l.startTime, tz) && e.dtend == ZonedTime(l.endTime, tz)
    ensures e.description.Some? <==> l.description.Some? && l.description.value != ""
    ensures e.description.Some? ==> e.description == l.description
  {
    CreateIcsEvent("Modeus: " + l.name, l.startTime, l.endTime, l.id,
                   tz, now, l.description, None)
  }

  /** The Netology entries of an export, in input order. */
  function NetologyEntries(ws: seq<Webinar>, tz: string, now: Instant): seq<Entry>
  {
    if ws == [] then []
    else
      var w := ws[|ws| - 1];
      NetologyEntries(ws[..|ws| - 1], tz, now) + (if HasTimes(w) then [NetologyEntry(w, tz, now)] else [])
  }

  /** The Modeus entries of an export, in input order. */
  function ModeusEntries(ls: seq<Lesson>, tz: string, now: Instant): seq<Entry>
  {
    if ls == [] then []
    else ModeusEntries(ls[..|ls| - 1], tz, now) + [ModeusEntry(ls[|ls| - 1], tz, now)]
  }

  /** Positions of the webinars that have both times. */
  function TimedIndices(ws: seq<Webinar>): set<int>
  {
    set i | 0 <= i < |ws| && HasTimes(ws[i])
  }

  /** What an export produces: a bad zone name fails before any lesson is
      looked at; otherwise the document holds the Netology entries and then
      the Modeus entries. */
  function Export(calendar: Snapshot, timezone: string, zones: set<string>, now: Instant): (r: Result<Document>)
    ensures r.Err? <==> timezone !in zones
    ensures r.Err? ==> r.error == WrongTimezone && StatusCode(r.error) == 400
    ensures r.Ok? ==> r.value.version == Version && r.value.prodid == ProdId
  {
    if timezone !in zones then Err(WrongTimezone)
    else
      Ok(Document(Version, ProdId,
                  NetologyEntries(calendar.netology.webinars, timezone, now)
                  + ModeusEntries(calendar.modeus, timezone, now)))
  }

  /** The exporter: validates the zone, then adds one event per exportable
      webinar and one per lesson to the calendar. */
  method ExportToIcs(calendar: Snapshot, timezone: string, zones: set<string>, now: Instant)
    returns (r: Result<Document>)
    ensures r == Export(calendar, timezone, zones, now)
  {
    if timezone !in zones {
      return Err(WrongTimezone);
    }
    var events: seq<Entry> := [];
    var webinars := calendar.netology.webinars;
    for i := 0 to |webinars|
      invariant events == NetologyEntries(webinars[..i], timezone, now)
    {
      var w := webinars[i];
      assert webinars[..i + 1][..i] == webinars[..i];
      if w.startsAt.None? || w.endsAt.None? {
        continue;
      }
      var event := CreateIcsEvent("Netology: " + w.title, w.startsAt.value, w.endsAt.value,
                                  IdText(w.id), timezone, now, None, w.webinarUrl);
      events := events + [event];
    }
    assert webinars[..|webinars|] == webinars;
    var netologyEvents := events;
    var lessons := calendar.modeus;
    for j := 0 to |lessons|
      invariant events == netologyEvents + ModeusEntries(lessons[..j], timezone, now)
    {
      var l := lessons[j];
      assert lessons[..j + 1][..j] == lessons[..j];
      var event := CreateIcsEvent("Modeus: " + l.name, l.startTime, l.endTime,
                                  l.id, timezone, now, l.description, None);
      events := events + [event];
    }
    assert lessons[..|lessons|] == lessons;
    r := Ok(Document(Version, ProdId, events));
  }

  /** Export distributes over concatenation of the webinar list. */
  lemma {:induction false} NetologyEntriesAppend(a: seq<Webinar>, b: seq<Webinar>, tz: string, now: Instant)
    ensures NetologyEntries(a + b, tz, now) == NetologyEntries(a, tz, now) + NetologyEntries(b, tz, now)
    decreases |b|
  {
    if b == [] {
      assert a + b == a;
    } else {
      var b' := b[..|b| - 1];
      assert (a + b)[..|a + b| - 1] == a + b';
      assert (a + b)[|a + b| - 1] == b[|b| - 1];
      NetologyEntriesAppend(a, b', tz, now);
    }
  }

  /** Each webinar contributes, at its own place, exactly one entry when it
      has both times and none otherwise. */
  lemma WebinarContribution(ws: seq<Webinar>, i: int, tz: string, now: Instant)
    requires 0 <= i < |ws|
    ensures NetologyEntries(ws, tz, now)
         == NetologyEntries(ws[..i], tz, now)
            + (if HasTimes(ws[i]) then [NetologyEntry(ws[i], tz, now)] else [])
            + NetologyEntries(ws[i + 1..], tz, now)
  {
    assert ws == ws[..i] + [ws[i]] + ws[i + 1..];
    NetologyEntriesAppend(ws[..i] + [ws[i]], ws[i + 1..], tz, now);
    NetologyEntriesAppend(ws[..i], [ws[i]], tz, now);
    assert [ws[i]][..0] == [];
  }

  /** The number of Netology entries is the number of webinars with both times. */
  lemma {:induction false} NetologyEntriesCount(ws: seq<Webinar>, tz: string, now: Instant)
    ensures |NetologyEntries(ws, tz, now)| == |TimedIndices(ws)|
  {
    if ws == [] {
      assert TimedIndices(ws) == {};
    } else {
      var n := |ws| - 1;
      var init := ws[..n];
      NetologyEntriesCount(init, tz, now);
      assert n !in TimedIndices(init);
      if HasTimes(ws[n]) {
        assert TimedIndices(ws) == TimedIndices(init) + {n};
      } else {
        assert TimedIndices(ws) == TimedIndices(init);
      }
    }
  }

  /** The entry of an exportable webinar stands at the position given by the
      number of exportable webinars before it. */
  lemma NetologyEntryPosition(ws: seq<Webinar>, i: int, tz: string, now: Instant)
    requires 0 <= i < |ws| && HasTimes(ws[i])
    ensures |TimedIndices(ws[..i])| < |NetologyEntries(ws, tz, now)|
    ensures NetologyEntries(ws, tz, now)[|TimedIndices(ws[..i])|] == NetologyEntry(ws[i], tz, now)
  {
    WebinarContribution(ws, i, tz, now);
    NetologyEntriesCount(ws[..i], tz, now);
  }

  /** Every Netology entry comes from a webinar that has both times. */
  lemma {:induction false} NetologyEntryOrigin(ws: seq<Webinar>, tz: string, now: Instant, k: int)
    requires 0 <= k < |NetologyEntries(ws, tz, now)|
    ensures exists i :: 0 <= i < |ws| && HasTimes(ws[i]) && NetologyEntries(ws, tz, now)[k] == NetologyEntry(ws[i], tz, now)
  {
    var n := |ws| - 1;
    var init := ws[..n];
    if k < |NetologyEntries(init, tz, now)| {
      NetologyEntryOrigin(init, tz, now, k);
      var i :| 0 <= i < |init| && HasTimes(init[i]) && NetologyEntries(init, tz, now)[k] == NetologyEntry(init[i], tz, now);
      assert init[i] == ws[i];
    } else {
      assert NetologyEntries(ws, tz, now)[k] == NetologyEntry(ws[n], tz, now);
    }
  }

  /** Every lesson gives exactly one entry, at its own position. */
  lemma {:induction false} ModeusEntriesAt(ls: seq<Lesson>, tz: string, now: Instant)
    ensures |ModeusEntries(ls, tz, now)| == |ls|
    ensures forall k :: 0 <= k < |ls| ==> ModeusEntries(ls, tz, now)[k] == ModeusEntry(ls[k], tz, now)
  {
    if ls != [] {
      var init := ls[..|ls| - 1];
      ModeusEntriesAt(init, tz, now);
      assert forall k :: 0 <= k < |init| ==> init[k] == ls[k];
    }
  }

  /** The layout of a successful export: all Netology entries first, then
      one entry per lesson in input order; the entry count is the number of
      webinars with both times plus the number of lessons. */
  lemma ExportLayout(calendar: Snapshot, timezone: string, zones: set<string>, now: Instant)
    requires timezone in zones
    ensures Export(calendar, timezone, zones, now).Ok?
    ensures var events := Export(calendar, timezone, zones, now).value.events;
            var netologyCount := |TimedIndices(calendar.netology.webinars)|;
            && |events| == netologyCount + |calendar.modeus|
            && events[..netologyCount] == NetologyEntries(calendar.netology.webinars, timezone, now)
            && (forall k :: 0 <= k < netologyCount ==> StartsWith(events[k].summary, "Netology: "))
            && (forall k :: 0 <= k < |calendar.modeus| ==>
                  events[netologyCount + k] == ModeusEntry(calendar.modeus[k], timezone, now))
  {
    var ws := calendar.netology.webinars;
    NetologyEntriesCount(ws, timezone, now);
    ModeusEntriesAt(calendar.modeus, timezone, now);
    var ne := NetologyEntries(ws, timezone, now);
    forall k | 0 <= k < |ne|
      ensures StartsWith(ne[k].summary, "Netology: ")
    {
      NetologyEntryOrigin(ws, timezone, now, k);
      var i :| 0 <= i < |ws| && HasTimes(ws[i]) && ne[k] == NetologyEntry(ws[i], timezone, now);
      assert ne[k].summary[..10] == "Netology: ";
    }
  }

  /** One timed webinar "Math" and one lesson "Physics" exported in UTC give
      exactly two entries, "Netology: Math" then "Modeus: Physics". */
  lemma TwoSourceScenario(now: Instant)
    ensures var math := Webinar(1, "Math", Some(1704103200), Some(1704106800), None);
            var physics := Lesson("2", "Physics", 1704110400, 1704114000, None);
            var r := Export(Snapshot(NetologyCalendar([math]), [physics]), "UTC", {"UTC"}, now);
            && r.Ok?
            && |r.value.events| == 2
            && r.value.events[0].summary == "Netology: Math"
            && r.value.events[1].summary == "Modeus: Physics"
  {
    var math := Webinar(1, "Math", Some(1704103200), Some(1704106800), None);
    var physics := Lesson("2", "Physics", 1704110400, 1704114000, None);
    assert [math][..0] == [];
    assert [physics][..0] == [];
    assert NetologyEntries([math], "UTC", now) == [NetologyEntry(math, "UTC", now)];
    assert ModeusEntries([physics], "UTC", now) == [ModeusEntry(physics, "UTC", now)];
    assert "Netology: " + "Math" == "Netology: Math";
    assert "Modeus: " + "Physics" == "Modeus: Physics";
  }

  /** The `uid` is the id's text whatever the source, so a webinar and a
      lesson with the same id give entries with the same `uid`. */
  lemma SharedUidAcrossSources(tz: string, now: Instant)
    ensures var w := Webinar(5, "Math", Some(0), Some(3600), None);
            var l := Lesson("5", "Physics", 0, 3600, None);
            NetologyEntry(w, tz, now).uid == ModeusEntry(l, tz, now).uid == "5"
  {
    assert IdText(5) == [DigitChar(5)];
  }
}
