/** The scheduling form of Frontend/TaskCalender/src/components/BottomRight.jsx: a list of
    task entries edited in place, the date-picker dialog, and `handleSchedule`, which
    validates the entries and posts one creation request per complete entry. */
module ScheduleFormModel {
  import opened Wrappers
  import opened JsText

  /** One entry of the form. `id` is the `Date.now()` of its creation. */
  datatype Entry = Entry(id: int, title: string, text: string, date: string, kind: string, repeatEveryDays: int)

  /** The blank entry the form starts with and `addTask` appends. */
  function DefaultEntry(now: int): (e: Entry)
    ensures e.id == now && e.kind == "task" && e.repeatEveryDays == 0
    ensures e.title == "" && e.text == "" && e.date == ""
  {
    Entry(now, "", "", "", "task", 0)
  }

  /** The fields `updateTask(id, field, value)` is called with. */
  datatype FieldUpdate =
    | SetTitle(title: string)
    | SetText(text: string)
    | SetDate(date: string)
    | SetType(kind: string)
    | SetRepeat(days: int)

  /** `{ ...t, [field]: value }`. */
  function Apply(e: Entry, u: FieldUpdate): (r: Entry)
    ensures r.id == e.id
    ensures u.SetTitle? ==> r == e.(title := u.title)
    ensures u.SetText? ==> r == e.(text := u.text)
    ensures u.SetDate? ==> r == e.(date := u.date)
    ensures u.SetType? ==> r == e.(kind := u.kind)
    ensures u.SetRepeat? ==> r == e.(repeatEveryDays := u.days)
  {
    match u
    case SetTitle(s) => e.(title := s)
    case SetText(s) => e.(text := s)
    case SetDate(s) => e.(date := s)
    case SetType(s) => e.(kind := s)
    case SetRepeat(n) => e.(repeatEveryDays := n)
  }

  predicate DistinctIds(es: seq<Entry>) {
    forall i, j :: 0 <= i < j < |es| ==> es[i].id != es[j].id
  }

  /** `prev.filter(t => t.id !== id)`. */
  function Without(es: seq<Entry>, id: int): seq<Entry> {
    if es == [] then []
    else Without(es[..|es| - 1], id) + (if es[|es| - 1].id != id then [es[|es| - 1]] else [])
  }

  /** Removing an id keeps exactly the entries with other ids. */
  lemma {:induction false} WithoutMembers(es: seq<Entry>, id: int)
    ensures forall e :: e in Without(es, id) <==> e in es && e.id != id
  {
    if es != [] {
      var init, last := es[..|es| - 1], es[|es| - 1];
      WithoutMembers(init, id);
      assert es == init + [last];
    }
  }

  /** Removing an id keeps the ids distinct. */
  lemma {:induction false} WithoutDistinct(es: seq<Entry>, id: int)
    requires DistinctIds(es)
    ensures DistinctIds(Without(es, id))
  {
    if es != [] {
      var init, last := es[..|es| - 1], es[|es| - 1];
      assert DistinctIds(init) by {
        forall i, j | 0 <= i < j < |init| ensures init[i].id != init[j].id {
          assert init[i] == es[i] && init[j] == es[j];
        }
      }
      WithoutDistinct(init, id);
      if last.id != id {
        WithoutMembers(init, id);
        var w := Without(init, id);
        forall i, j | 0 <= i < j < |w + [last]| ensures (w + [last])[i].id != (w + [last])[j].id {
          if j == |w| {
            assert w[i] in init;
            var k :| 0 <= k < |init| && init[k] == w[i];
            assert es[k].id != es[|es| - 1].id;
          } else {
            assert (w + [last])[i] == w[i] && (w + [last])[j] == w[j];
          }
        }
      }
    }
  }

  /** With distinct ids, removing an id drops at most one entry. */
  lemma {:induction false} WithoutLength(es: seq<Entry>, id: int)
    requires DistinctIds(es)
    ensures |Without(es, id)| >= |es| - 1
  {
    if es != [] {
      var init, last := es[..|es| - 1], es[|es| - 1];
      if last.id == id {
        forall k | 0 <= k < |init| ensures init[k].id != id {
          assert es[k].id != es[|es| - 1].id;
        }
        WithoutAbsent(init, id);
      } else {
        assert DistinctIds(init) by {
          forall i, j | 0 <= i < j < |init| ensures init[i].id != init[j].id {
            assert init[i] == es[i] && init[j] == es[j];
          }
        }
        WithoutLength(init, id);
      }
    }
  }

  /** Removing an id nobody has changes nothing. */
  lemma {:induction false} WithoutAbsent(es: seq<Entry>, id: int)
    requires forall k :: 0 <= k < |es| ==> es[k].id != id
    ensures Without(es, id) == es
  {
    if es != [] {
      var init, last := es[..|es| - 1], es[|es| - 1];
      assert forall k :: 0 <= k < |init| ==> init[k] == es[k];
      WithoutAbsent(init, id);
      assert es == init + [last];
    }
  }

  /** `t.title.trim() && t.text.trim() && t.date`. */
  predicate IsComplete(e: Entry) {
    Trim(e.title) != "" && Trim(e.text) != "" && e.date != ""
  }

  /** `tasks.filter(...)`: the complete entries, in order. */
  function ValidEntries(es: seq<Entry>): seq<Entry> {
    if es == [] then []
    else ValidEntries(es[..|es| - 1]) + (if IsComplete(es[|es| - 1]) then [es[|es| - 1]] else [])
  }

  /** An entry is sent iff it is complete; an entry with a blank title or text, or
      without a date, never is. */
  lemma {:induction false} ValidEntriesSpec(es: seq<Entry>)
    ensures forall e :: e in ValidEntries(es) <==> e in es && IsComplete(e)
    ensures |ValidEntries(es)| <= |es|
  {
    if es != [] {
      ValidEntriesSpec(es[..|es| - 1]);
      assert es == es[..|es| - 1] + [es[|es| - 1]];
    }
  }

  /** The creation request of one entry. */
  datatype Payload = Payload(subject: string, title: string, text: string, assignedDate: string,
                             kind: string, repeatEveryDays: Option<int>)

  /** The payload of an entry: its fields under the chosen subject, and the repeat
      interval only for a general entry that repeats. */
  function PayloadOf(subject: string, e: Entry): (p: Payload)
    ensures p.subject == subject && p.title == e.title && p.text == e.text
    ensures p.assignedDate == e.date && p.kind == e.kind
    ensures p.repeatEveryDays.Some? <==> e.kind == "general" && e.repeatEveryDays > 0
    ensures p.repeatEveryDays.Some? ==> p.repeatEveryDays.value == e.repeatEveryDays
  {
    Payload(subject, e.title, e.text, e.date, e.kind,
      if e.kind == "general" && e.repeatEveryDays > 0 then Some(e.repeatEveryDays) else None)
  }

  function Payloads(subject: string, es: seq<Entry>): (ps: seq<Payload>)
    ensures |ps| == |es| && forall k :: 0 <= k < |es| ==> ps[k] == PayloadOf(subject, es[k])
  {
    seq(|es|, k requires 0 <= k < |es| => PayloadOf(subject, es[k]))
  }

  /** How `handleSchedule` ends: an alert before any request, all requests answered,
      or a request that failed after the ones before it were sent. */
  datatype ScheduleOutcome =
    | NoSubject
    | NoCompleteTask
    | Scheduled(sent: seq<Payload>)
    | Failed(sent: seq<Payload>)

  class ScheduleForm {
    var entries: seq<Entry>
    var selectedSubject: string
    var showCalendar: bool
    var currentTaskId: Option<int>
    var selectedDate: string

    /** The form never shows an empty list, and its entries have distinct ids. */
    ghost predicate Valid()
      reads this
    {
      |entries| >= 1 && DistinctIds(entries)
    }

    constructor(now: int)
      ensures Valid()
      ensures entries == [DefaultEntry(now)] && selectedSubject == ""
      ensures !showCalendar && currentTaskId.None? && selectedDate == ""
    {
      entries := [DefaultEntry(now)];
      selectedSubject := "";
      showCalendar := false;
      currentTaskId := None;
      selectedDate := "";
    }

    /** `updateTask(id, field, value)`: every entry with the id gets the field; the others
        are unchanged, as are the ids and the order. */
    method UpdateTask(id: int, u: FieldUpdate)
      modifies this`entries
      ensures |entries| == |old(entries)|
      ensures forall k :: 0 <= k < |entries| ==>
        entries[k] == if old(entries)[k].id == id then Apply(old(entries)[k], u) else old(entries)[k]
      ensures old(Valid()) ==> Valid()
    {
      var prev := entries;
      entries := seq(|prev|, k requires 0 <= k < |prev| =>
        if prev[k].id == id then Apply(prev[k], u) else prev[k]);
    }

    /** `addTask`: one blank entry at the end. It keeps the ids distinct when the clock
        has moved on since the last entry was made. */
    method AddTask(now: int)
      modifies this`entries
      ensures entries == old(entries) + [DefaultEntry(now)]
      ensures old(Valid()) && (forall e :: e in old(entries) ==> e.id != now) ==> Valid()
    {
      entries := entries + [DefaultEntry(now)];
    }

    /** `removeTask(id)`: drops the entries with that id unless only one entry is left. */
    method RemoveTask(id: int)
      modifies this`entries
      ensures |old(entries)| > 1 ==> entries == Without(old(entries), id)
      ensures |old(entries)| <= 1 ==> entries == old(entries)
      ensures old(Valid()) ==> Valid()
    {
      if old(Valid()) {
        WithoutDistinct(entries, id);
        WithoutLength(entries, id);
      }
      if |entries| > 1 {
        entries := Without(entries, id);
      }
    }

    /** `openCalendar(taskId)`: the picker opens for that entry with no date chosen. */
    method OpenCalendar(taskId: int)
      modifies this`currentTaskId, this`selectedDate, this`showCalendar
      ensures currentTaskId == Some(taskId) && selectedDate == "" && showCalendar
    {
      currentTaskId := Some(taskId);
      selectedDate := "";
      showCalendar := true;
    }

    /** `confirmCalendarDate`: without a chosen date or entry (an id of 0 counts as none)
        nothing happens; otherwise the entry gets the date and the picker closes. */
    method ConfirmCalendarDate()
      modifies this`entries, this`currentTaskId, this`selectedDate, this`showCalendar
      ensures old(selectedDate) == "" || old(currentTaskId) == None || old(currentTaskId) == Some(0) ==>
        entries == old(entries) && currentTaskId == old(currentTaskId) &&
        selectedDate == old(selectedDate) && showCalendar == old(showCalendar)
      ensures old(selectedDate) != "" && old(currentTaskId).Some? && old(currentTaskId) != Some(0) ==>
        && |entries| == |old(entries)|
        && (forall k :: 0 <= k < |entries| ==>
             entries[k] == if old(entries)[k].id == old(currentTaskId).value
                           then old(entries)[k].(date := old(selectedDate)) else old(entries)[k])
        && !showCalendar && currentTaskId.None? && selectedDate == ""
      ensures old(Valid()) ==> Valid()
    {
      if selectedDate == "" || currentTaskId == None || currentTaskId == Some(0) {
        return;
      }
      UpdateTask(currentTaskId.value, SetDate(selectedDate));
      showCalendar := false;
      currentTaskId := None;
      selectedDate := "";
    }

    /** `handleSchedule`: requires a subject and at least one complete entry, then posts
        the complete entries in list order; `failAt` is the position of the first request
        the server or network rejects, if any. After a failure the form is kept; after
        success it is reset to one blank entry with no subject. */
    method HandleSchedule(failAt: Option<nat>, now: int) returns (outcome: ScheduleOutcome)
      modifies this`entries, this`selectedSubject
      ensures old(selectedSubject) == "" ==> outcome == NoSubject
      ensures old(selectedSubject) != "" && ValidEntries(old(entries)) == [] ==> outcome == NoCompleteTask
      ensures outcome.NoSubject? || outcome.NoCompleteTask? || outcome.Failed? ==>
        entries == old(entries) && selectedSubject == old(selectedSubject)
      ensures outcome.Scheduled? ==>
        && old(selectedSubject) != "" && ValidEntries(old(entries)) != []
        && (failAt.None? || failAt.value >= |ValidEntries(old(entries))|)
        && outcome.sent == Payloads(old(selectedSubject), ValidEntries(old(entries)))
        && entries == [DefaultEntry(now)] && selectedSubject == ""
      ensures outcome.Failed? ==>
        && failAt.Some? && failAt.value < |ValidEntries(old(entries))|
        && outcome.sent == Payloads(old(selectedSubject), ValidEntries(old(entries))[..failAt.value + 1])
      ensures old(selectedSubject) != "" && ValidEntries(old(entries)) != [] ==> outcome.Scheduled? || outcome.Failed?
      ensures old(Valid()) ==> Valid()
    {
      if selectedSubject == "" {
        return NoSubject;
      }
      var validTasks := ValidEntries(entries);
      if |validTasks| == 0 {
        return NoCompleteTask;
      }
      var sent, failed := PostEntries(selectedSubject, validTasks, failAt);
      if failed {
        return Failed(sent);
      }
      selectedSubject := "";
      entries := [DefaultEntry(now)];
      return Scheduled(sent);
    }
  }

  /** The request loop of `handleSchedule`: posts the payload of each entry in order and
      stops at the first request that fails (the one at `failAt`). */
  method PostEntries(subject: string, validTasks: seq<Entry>, failAt: Option<nat>)
    returns (sent: seq<Payload>, failed: bool)
    ensures failed <==> failAt.Some? && failAt.value < |validTasks|
    ensures failed ==> sent == Payloads(subject, validTasks[..failAt.value + 1])
    ensures !failed ==> sent == Payloads(subject, validTasks)
  {
    sent := [];
    for k := 0 to |validTasks|
      invariant sent == Payloads(subject, validTasks[..k])
      invariant failAt.Some? ==> failAt.value >= k
    {
      var t := validTasks[k];
      var repeat: Option<int> := None;
      if t.kind == "general" && t.repeatEveryDays > 0 {
        repeat := Some(t.repeatEveryDays);
      }
      var payload := Payload(subject, t.title, t.text, t.date, t.kind, repeat);
      PayloadsSnoc(subject, validTasks, k);
      sent := sent + [payload];
      if failAt == Some(k) {
        return sent, true;
      }
    }
    assert validTasks[..|validTasks|] == validTasks;
    return sent, false;
  }

  lemma PayloadsSnoc(subject: string, es: seq<Entry>, k: nat)
    requires k < |es|
    ensures Payloads(subject, es[..k + 1]) == Payloads(subject, es[..k]) + [PayloadOf(subject, es[k])]
  {
  }

  /** Every request of a scheduling run is the payload of a complete entry of the form,
      with the form's subject. */
  lemma SentAreComplete(subject: string, es: seq<Entry>, p: Payload)
    requires p in Payloads(subject, ValidEntries(es))
    ensures exists e :: e in es && IsComplete(e) && p == PayloadOf(subject, e)
  {
    ValidEntriesSpec(es);
    var ps := Payloads(subject, ValidEntries(es));
    var k :| 0 <= k < |ps| && ps[k] == p;
    assert ValidEntries(es)[k] in ValidEntries(es);
  }
}
