/**
 The record registry (record.c) under every interleaving of its callers. Each
 function that takes the registry mutex is one step; opening is two, because the
 wait for the ready flag happens outside the mutex.
 */
module Records {

  /** A registry entry; id tells apart entries that had the same name at different times. */
  datatype Entry = Entry(id: nat, data: nat, ready: bool, holders: nat)    // data 0 is NULL

  /** A call of furi_record_open between its increment and the matching close. */
  datatype Hold = Hold(name: string, id: nat, returned: bool, result: nat)

  datatype State = State(
    records: map<string, Entry>,
    nextId: nat,
    holds: map<nat, Hold>,           // open calls that have not been closed, by call
    created: map<nat, nat>,          // entry id -> pointer given to furi_record_create
    erased: set<nat>)                // entry ids that were erased

  datatype Step =
    | Create(name: string, data: nat)
    | Destroy(name: string)
    | OpenBegin(call: nat, name: string)
    | OpenEnd(call: nat)
    | Close(call: nat)

  /** furi_record_data_get_or_create */
  function WithEntry(s: State, name: string): State {
    if name in s.records then s
    else s.(records := s.records[name := Entry(s.nextId, 0, false, 0)], nextId := s.nextId + 1)
  }

  /** The furi_checks, and what the callers promise: calls are fresh, and a thread closes only what it opened. */
  predicate Enabled(s: State, a: Step) {
    match a
    case Create(name, data) => data != 0 && (name in s.records ==> s.records[name].data == 0)
    case Destroy(name) => name in s.records
    case OpenBegin(call, _) => call !in s.holds
    case OpenEnd(call) => call in s.holds && !s.holds[call].returned && s.holds[call].name in s.records
                          && s.records[s.holds[call].name].ready
    case Close(call) => call in s.holds && s.holds[call].returned && s.holds[call].name in s.records
                        && s.records[s.holds[call].name].holders > 0
  }

  function Apply(s: State, a: Step): State
    requires Enabled(s, a)
  {
    match a
    case Create(name, data) =>
      var s1 := WithEntry(s, name);
      var e := s1.records[name];
      s1.(records := s1.records[name := e.(data := data, ready := true)], created := s1.created[e.id := data])
    case Destroy(name) =>
      if s.records[name].holders == 0
      then s.(records := s.records - {name}, erased := s.erased + {s.records[name].id})
      else s
    case OpenBegin(call, name) =>
      var s1 := WithEntry(s, name);
      var e := s1.records[name];
      s1.(records := s1.records[name := e.(holders := e.holders + 1)],
          holds := s1.holds[call := Hold(name, e.id, false, 0)])
    case OpenEnd(call) =>
      var h := s.holds[call];
      s.(holds := s.holds[call := h.(returned := true, result := s.records[h.name].data)])
    case Close(call) =>
      var h := s.holds[call];
      var e := s.records[h.name];
      s.(records := s.records[h.name := e.(holders := e.holders - 1)], holds := s.holds - {call})
  }

  /** The open calls on an entry. */
  function CallsOn(holds: map<nat, Hold>, name: string): set<nat> {
    set c | c in holds && holds[c].name == name
  }

  /** What holds of one entry: its holder count is the number of open calls on it, and the ready flag
      says exactly that it was created, with the pointer given then. */
  ghost predicate EntryOk(s: State, name: string)
    requires name in s.records
  {
    var e := s.records[name];
    && e.id < s.nextId && e.id !in s.erased
    && e.holders == |CallsOn(s.holds, name)|
    && (e.ready <==> e.data != 0)
    && (e.ready <==> e.id in s.created)
    && (e.ready ==> s.created[e.id] == e.data)
  }

  /** What holds of one open call: its entry is still the one it opened, and a result is that entry's pointer. */
  ghost predicate HoldOk(s: State, call: nat)
    requires call in s.holds
  {
    var h := s.holds[call];
    && h.name in s.records && s.records[h.name].id == h.id
    && (h.returned ==> h.id in s.created && h.result == s.created[h.id] != 0)
  }

  ghost predicate Inv(s: State) {
    && (forall name :: name in s.records ==> EntryOk(s, name))
    && (forall call :: call in s.holds ==> HoldOk(s, call))
    && (forall id :: id in s.created || id in s.erased ==> id < s.nextId)
    && (forall a, b :: a in s.records && b in s.records && s.records[a].id == s.records[b].id ==> a == b)
  }

  lemma {:induction false} CallsAdd(holds: map<nat, Hold>, call: nat, h: Hold, name: string)
    requires call !in holds
    ensures |CallsOn(holds[call := h], name)| == |CallsOn(holds, name)| + if h.name == name then 1 else 0
  {
    if h.name == name {
      assert CallsOn(holds[call := h], name) == CallsOn(holds, name) + {call};
    } else {
      assert CallsOn(holds[call := h], name) == CallsOn(holds, name);
    }
  }

  lemma {:induction false} CallsRemove(holds: map<nat, Hold>, call: nat, name: string)
    requires call in holds
    ensures |CallsOn(holds - {call}, name)| == |CallsOn(holds, name)| - if holds[call].name == name then 1 else 0
  {
    assert CallsOn(holds - {call}, name) == CallsOn(holds, name) - {call};
  }

  lemma {:induction false} CallsUpdate(holds: map<nat, Hold>, call: nat, h: Hold, name: string)
    requires call in holds && holds[call].name == h.name
    ensures CallsOn(holds[call := h], name) == CallsOn(holds, name)
  {
  }

  lemma {:induction false} NoCalls(holds: map<nat, Hold>, name: string)
    requires |CallsOn(holds, name)| == 0
    ensures forall call :: call in holds ==> holds[call].name != name
  {
    assert CallsOn(holds, name) == {};
    forall call | call in holds
      ensures holds[call].name != name
    {
      assert call !in CallsOn(holds, name);
    }
  }

  lemma {:induction false} WithEntryInv(s: State, name: string)
    requires Inv(s)
    ensures Inv(WithEntry(s, name)) && name in WithEntry(s, name).records
  {
    if name !in s.records {
      var s' := WithEntry(s, name);
      assert CallsOn(s.holds, name) == {} by {
        forall c | c in s.holds
          ensures s.holds[c].name != name
        {
          assert HoldOk(s, c);
        }
      }
      hide CallsOn;
      forall x | x in s'.records
        ensures EntryOk(s', x)
      {
        assert x != name ==> EntryOk(s, x);
      }
      forall c | c in s'.holds
        ensures HoldOk(s', c)
      {
        assert HoldOk(s, c);
      }
      assert forall x :: x in s.records ==> EntryOk(s, x) && s.records[x].id < s.nextId;
    }
  }

  lemma {:induction false} CreateInv(s: State, name: string, data: nat)
    requires Inv(s) && Enabled(s, Create(name, data))
    ensures Inv(Apply(s, Create(name, data)))
  {
    hide Inv, CallsOn;
    WithEntryInv(s, name);
    FillInv(WithEntry(s, name), name, data);
  }

  lemma {:induction false} FillInv(s: State, name: string, data: nat)
    requires Inv(s) && name in s.records && s.records[name].data == 0 && data != 0
    ensures var e := s.records[name];
            Inv(s.(records := s.records[name := e.(data := data, ready := true)], created := s.created[e.id := data]))
  {
    hide CallsOn;
    var e := s.records[name];
    var s' := s.(records := s.records[name := e.(data := data, ready := true)], created := s.created[e.id := data]);
    assert EntryOk(s, name);
    forall x | x in s'.records
      ensures EntryOk(s', x)
    {
      assert EntryOk(s, x);
    }
    forall c | c in s'.holds
      ensures HoldOk(s', c)
    {
      assert HoldOk(s, c);
    }
  }

  lemma {:induction false} DestroyInv(s: State, name: string)
    requires Inv(s) && Enabled(s, Destroy(name))
    ensures Inv(Apply(s, Destroy(name)))
  {
    if s.records[name].holders == 0 {
      var s' := Apply(s, Destroy(name));
      assert EntryOk(s, name);
      NoCalls(s.holds, name);
      hide CallsOn;
      forall x | x in s'.records
        ensures EntryOk(s', x)
      {
        assert EntryOk(s, x);
      }
      forall c | c in s'.holds
        ensures HoldOk(s', c)
      {
        assert HoldOk(s, c);
      }
    }
  }

  lemma {:induction false} OpenBeginInv(s: State, call: nat, name: string)
    requires Inv(s) && Enabled(s, OpenBegin(call, name))
    ensures Inv(Apply(s, OpenBegin(call, name)))
  {
    hide Inv, CallsOn;
    WithEntryInv(s, name);
    AcquireInv(WithEntry(s, name), call, name);
  }

  lemma {:induction false} AcquireInv(s: State, call: nat, name: string)
    requires Inv(s) && name in s.records && call !in s.holds
    ensures var e := s.records[name];
            Inv(s.(records := s.records[name := e.(holders := e.holders + 1)],
                   holds := s.holds[call := Hold(name, e.id, false, 0)]))
  {
    hide CallsOn;
    var e := s.records[name];
    var h := Hold(name, e.id, false, 0);
    var s' := s.(records := s.records[name := e.(holders := e.holders + 1)], holds := s.holds[call := h]);
    forall x | x in s'.records
      ensures EntryOk(s', x)
    {
      assert EntryOk(s, x);
      CallsAdd(s.holds, call, h, x);
    }
    forall c | c in s'.holds
      ensures HoldOk(s', c)
    {
      assert c != call ==> HoldOk(s, c);
    }
  }

  lemma {:induction false} OpenEndInv(s: State, call: nat)
    requires Inv(s) && Enabled(s, OpenEnd(call))
    ensures Inv(Apply(s, OpenEnd(call)))
  {
    var s', h := Apply(s, OpenEnd(call)), s.holds[call];
    assert HoldOk(s, call) && EntryOk(s, h.name);
    hide CallsOn;
    forall x | x in s'.records
      ensures EntryOk(s', x)
    {
      assert EntryOk(s, x);
      CallsUpdate(s.holds, call, s'.holds[call], x);
    }
    forall c | c in s'.holds
      ensures HoldOk(s', c)
    {
      assert HoldOk(s, c);
    }
  }

  lemma {:induction false} CloseInv(s: State, call: nat)
    requires Inv(s) && Enabled(s, Close(call))
    ensures Inv(Apply(s, Close(call)))
  {
    var s' := Apply(s, Close(call));
    hide CallsOn;
    forall x | x in s'.records
      ensures EntryOk(s', x)
    {
      assert EntryOk(s, x);
      CallsRemove(s.holds, call, x);
    }
    forall c | c in s'.holds
      ensures HoldOk(s', c)
    {
      assert HoldOk(s, c);
    }
  }

  lemma {:induction false} StepKeepsInv(s: State, a: Step)
    requires Inv(s) && Enabled(s, a)
    ensures Inv(Apply(s, a))
  {
    match a
    case Create(name, data) => CreateInv(s, name, data);
    case Destroy(name) => DestroyInv(s, name);
    case OpenBegin(call, name) => OpenBeginInv(s, call, name);
    case OpenEnd(call) => OpenEndInv(s, call);
    case Close(call) => CloseInv(s, call);
  }

  // ---------- Whole runs ----------

  const EMPTY := State(map[], 0, map[], map[], {})

  ghost predicate IsRun(ss: seq<State>, steps: seq<Step>) {
    && |ss| == |steps| + 1 && ss[0] == EMPTY
    && forall k :: 0 <= k < |steps| ==> Enabled(ss[k], steps[k]) && ss[k + 1] == Apply(ss[k], steps[k])
  }

  lemma {:induction false} RunKeepsInv(ss: seq<State>, steps: seq<Step>, k: nat)
    requires IsRun(ss, steps) && k < |ss|
    ensures Inv(ss[k])
    decreases k
  {
    if k > 0 {
      RunKeepsInv(ss, steps, k - 1);
      hide Inv, Enabled, Apply;
      assert ss[k - 1 + 1] == Apply(ss[k - 1], steps[k - 1]);
      StepKeepsInv(ss[k - 1], steps[k - 1]);
    }
  }

  /** In every state of every run: the holder count of each record is the number of open calls not yet
      closed; an open call's record is still there and is the one it opened; and an open that has
      returned gave the non-null pointer passed to create for that record. */
  lemma {:induction false} RecordsSafe(ss: seq<State>, steps: seq<Step>, k: nat)
    requires IsRun(ss, steps) && k < |ss|
    ensures forall name :: name in ss[k].records ==>
              ss[k].records[name].holders == |CallsOn(ss[k].holds, name)|
              && (ss[k].records[name].ready ==> ss[k].records[name].data != 0)
    ensures forall call :: call in ss[k].holds ==>
              var h := ss[k].holds[call];
              && h.name in ss[k].records && ss[k].records[h.name].id == h.id && h.id !in ss[k].erased
              && (h.returned ==> h.id in ss[k].created && h.result == ss[k].created[h.id] && h.result != 0)
  {
    RunKeepsInv(ss, steps, k);
    var s := ss[k];
    forall name | name in s.records
      ensures s.records[name].holders == |CallsOn(s.holds, name)| && (s.records[name].ready ==> s.records[name].data != 0)
    {
      assert EntryOk(s, name);
    }
    forall call | call in s.holds
      ensures var h := s.holds[call];
              && h.name in s.records && s.records[h.name].id == h.id && h.id !in s.erased
              && (h.returned ==> h.id in s.created && h.result == s.created[h.id] && h.result != 0)
    {
      assert HoldOk(s, call);
      assert EntryOk(s, s.holds[call].name);
    }
  }

  /** Closing an open call always finds its record with a positive holder count, so the count never wraps. */
  lemma {:induction false} CloseAlwaysPossible(ss: seq<State>, steps: seq<Step>, k: nat, call: nat)
    requires IsRun(ss, steps) && k < |ss| && call in ss[k].holds && ss[k].holds[call].returned
    ensures Enabled(ss[k], Close(call))
  {
    RunKeepsInv(ss, steps, k);
    var s := ss[k];
    assert HoldOk(s, call);
    var name := s.holds[call].name;
    assert EntryOk(s, name);
    assert call in CallsOn(s.holds, name);
  }

  // ---------- Runs seen through the calls made ----------

  /** A destroy of the record that finds no open call, and so erases it. */
  predicate Erases(s: State, a: Step, name: string) {
    a == Destroy(name) && name in s.records && s.records[name].holders == 0
  }

  /** Only three calls touch what a name stands for: a create or an open brings it in, and a destroy that
      finds no open call takes it out. */
  lemma {:induction false} NameStep(s: State, a: Step, name: string)
    requires Enabled(s, a) && (name in s.records && s.records[name].ready ==> s.records[name].data != 0)
    ensures Erases(s, a, name) ==> name !in Apply(s, a).records
    ensures name in s.records && !Erases(s, a, name) ==> name in Apply(s, a).records
    ensures name !in s.records && name in Apply(s, a).records ==>
              (exists data :: a == Create(name, data)) || exists call :: a == OpenBegin(call, name)
    ensures (exists data :: a == Create(name, data)) ==>
              name in Apply(s, a).records && a == Create(name, Apply(s, a).records[name].data) && Apply(s, a).records[name].ready
    ensures name in Apply(s, a).records && Apply(s, a).records[name].ready && !(exists data :: a == Create(name, data)) ==>
              name in s.records && s.records[name].ready && s.records[name].data == Apply(s, a).records[name].data
    ensures name in s.records && name in Apply(s, a).records && s.records[name].ready ==>
              Apply(s, a).records[name].ready && Apply(s, a).records[name].data == s.records[name].data
  {
  }

  lemma {:induction false} ReadyHasData(ss: seq<State>, steps: seq<Step>, k: nat, name: string)
    requires IsRun(ss, steps) && k < |ss|
    ensures name in ss[k].records && ss[k].records[name].ready ==> ss[k].records[name].data != 0
  {
    RunKeepsInv(ss, steps, k);
    hide Enabled, Apply, CallsOn;
    if name in ss[k].records {
      assert EntryOk(ss[k], name);
    }
  }

  /** After a destroy has erased the record, its name is absent until the next create or open of it. */
  lemma {:induction false} ErasedStaysAbsent(ss: seq<State>, steps: seq<Step>, i: nat, k: nat, name: string)
    requires IsRun(ss, steps) && i < k <= |steps| && Erases(ss[i], steps[i], name)
    requires forall j :: i < j < k ==>
               (forall data :: steps[j] != Create(name, data)) && forall call :: steps[j] != OpenBegin(call, name)
    ensures name !in ss[k].records
    decreases k
  {
    hide Enabled, Apply, Erases;
    var m := k - 1;
    assert Enabled(ss[m], steps[m]) && ss[m + 1] == Apply(ss[m], steps[m]);
    ReadyHasData(ss, steps, m, name);
    NameStep(ss[m], steps[m], name);
    if m > i {
      ErasedStaysAbsent(ss, steps, i, m, name);
    }
  }

  /** What is ready under a name was created under it, and not erased since. */
  lemma {:induction false} ReadyWasCreated(ss: seq<State>, steps: seq<Step>, k: nat, name: string) returns (j: nat)
    requires IsRun(ss, steps) && k <= |steps| && name in ss[k].records && ss[k].records[name].ready
    ensures j < k && steps[j] == Create(name, ss[k].records[name].data)
    ensures forall m :: j <= m < k ==> !Erases(ss[m], steps[m], name)
    decreases k
  {
    hide Enabled, Apply, Erases;
    if k == 0 {
      assert false;
    } else {
      var m := k - 1;
      assert Enabled(ss[m], steps[m]) && ss[m + 1] == Apply(ss[m], steps[m]);
      ReadyHasData(ss, steps, m, name);
    NameStep(ss[m], steps[m], name);
      if exists data :: steps[m] == Create(name, data) {
        j := m;
        CreateErasesNothing(ss[m], steps[m], name);
      } else {
        j := ReadyWasCreated(ss, steps, m, name);
      }
    }
  }

  lemma {:induction false} CreateErasesNothing(s: State, a: Step, name: string)
    requires a != Destroy(name)
    ensures !Erases(s, a, name)
  {
  }

  /** What was created under a name stays ready with that pointer until the record is erased. */
  lemma {:induction false} CreatedStays(ss: seq<State>, steps: seq<Step>, i: nat, k: nat, name: string, data: nat)
    requires IsRun(ss, steps) && i < k <= |steps| && steps[i] == Create(name, data)
    requires forall m :: i < m < k ==> !Erases(ss[m], steps[m], name)
    ensures name in ss[k].records && ss[k].records[name].ready && ss[k].records[name].data == data
    decreases k
  {
    hide Enabled, Apply, Erases;
    var m := k - 1;
    assert Enabled(ss[m], steps[m]) && ss[m + 1] == Apply(ss[m], steps[m]);
    ReadyHasData(ss, steps, m, name);
    NameStep(ss[m], steps[m], name);
    if m > i {
      CreatedStays(ss, steps, i, m, name, data);
    }
  }

  /** From its beginning to its close an open call holds the record of its name. */
  lemma {:induction false} HeldUntilClosed(ss: seq<State>, steps: seq<Step>, i: nat, k: nat, call: nat, name: string)
    requires IsRun(ss, steps) && i < k <= |steps| && steps[i] == OpenBegin(call, name)
    requires forall j :: i < j < k ==> steps[j] != Close(call)
    ensures call in ss[k].holds && ss[k].holds[call].name == name
    decreases k
  {
    hide Enabled, Apply;
    var m := k - 1;
    assert Enabled(ss[m], steps[m]) && ss[m + 1] == Apply(ss[m], steps[m]);
    if m > i {
      HeldUntilClosed(ss, steps, i, m, call, name);
    }
    HoldStep(ss[m], steps[m], call, name);
  }

  lemma {:induction false} HoldStep(s: State, a: Step, call: nat, name: string)
    requires Enabled(s, a) && a != Close(call)
    requires a == OpenBegin(call, name) || (call in s.holds && s.holds[call].name == name)
    ensures call in Apply(s, a).holds && Apply(s, a).holds[call].name == name
  {
  }

  /** A close gives up exactly its own hold. */
  lemma {:induction false} CloseReleases(ss: seq<State>, steps: seq<Step>, k: nat, call: nat)
    requires IsRun(ss, steps) && k < |steps| && steps[k] == Close(call)
    ensures call in ss[k].holds && ss[k + 1].holds.Keys == ss[k].holds.Keys - {call}
  {
    assert Enabled(ss[k], steps[k]) && ss[k + 1] == Apply(ss[k], steps[k]);
  }

  /** While a call holds a record, no destroy erases it. */
  lemma {:induction false} NotErasedWhileHeld(ss: seq<State>, steps: seq<Step>, k: nat, call: nat)
    requires IsRun(ss, steps) && k < |steps| && call in ss[k].holds
    ensures !Erases(ss[k], steps[k], ss[k].holds[call].name)
  {
    RunKeepsInv(ss, steps, k);
    var name := ss[k].holds[call].name;
    assert HoldOk(ss[k], call) && EntryOk(ss[k], name);
    assert call in CallsOn(ss[k].holds, name);
  }

  /** An open returns the pointer of a create of its name that no destroy has erased; in particular, an open
      begun after a destroy erased the record returns only what was created after that destroy. */
  lemma {:induction false} OpenReturnsCreated(ss: seq<State>, steps: seq<Step>, k: nat, call: nat) returns (j: nat)
    requires IsRun(ss, steps) && k < |steps| && steps[k] == OpenEnd(call)
    ensures call in ss[k].holds && call in ss[k + 1].holds && ss[k + 1].holds[call].returned
    ensures var name := ss[k].holds[call].name;
            && j < k && steps[j] == Create(name, ss[k + 1].holds[call].result)
            && (forall m :: j <= m < k ==> !Erases(ss[m], steps[m], name))
            && forall i :: 0 <= i < k && Erases(ss[i], steps[i], name) ==> i < j
  {
    assert Enabled(ss[k], steps[k]) && ss[k + 1] == Apply(ss[k], steps[k]);
    j := ReadyWasCreated(ss, steps, k, ss[k].holds[call].name);
  }

  // ---------- The registry object ----------

  /** Missing is the failed furi_check; otherwise whether the record was erased. */
  datatype DestroyResult = Missing | Held | Erased

  class Registry {
    var records: map<string, Entry>
    var nextId: nat

    ghost var holds: map<nat, Hold>
    ghost var created: map<nat, nat>
    ghost var erased: set<nat>

    ghost function View(): State
      reads this
    {
      State(records, nextId, holds, created, erased)
    }

    /** furi_record_init */
    constructor ()
      ensures View() == EMPTY && Inv(View())
    {
      records, nextId := map[], 0;
      holds, created, erased := map[], map[], {};
    }

    /** furi_record_data_get_or_create */
    method GetOrCreate(name: string)
      modifies this`records, this`nextId
      ensures View() == WithEntry(old(View()), name) && name in records
    {
      if name !in records {
        records := records[name := Entry(nextId, 0, false, 0)];
        nextId := nextId + 1;
      }
    }

    /** furi_record_create; false stands for its failed furi_checks. */
    method Create(name: string, data: nat) returns (ok: bool)
      requires Inv(View())
      modifies this`records, this`nextId, this`created
      ensures ok <==> data != 0 && (name in old(records) ==> old(records)[name].data == 0)
      ensures ok ==> name in records && records[name].ready && records[name].data == data
      ensures ok && name in old(records) ==> records[name].holders == old(records)[name].holders
      ensures forall x :: x != name ==> (x in records <==> x in old(records)) && (x in records ==> records[x] == old(records)[x])
      ensures ok ==> View() == Apply(old(View()), Step.Create(name, data)) && Inv(View())
    {
      if data == 0 {
        return false;
      }
      ghost var s := View();
      hide Inv;
      GetOrCreate(name);
      if records[name].data != 0 {
        return false;
      }
      CreateInv(s, name, data);
      created := created[records[name].id := data];
      records := records[name := records[name].(data := data, ready := true)];
      ok := true;
    }

    /** furi_record_destroy: erases the record only if nobody holds it, and stops at a missing record. */
    method Destroy(name: string) returns (r: DestroyResult)
      requires Inv(View())
      modifies this`records, this`erased
      ensures r == Missing <==> name !in old(records)
      ensures r == Missing ==> View() == old(View())
      ensures r == Erased <==> name in old(records) && old(records)[name].holders == 0
      ensures r == Erased ==>
                && name !in records && (forall call :: call in holds ==> holds[call].name != name)
                && forall data :: data != 0 ==> Enabled(View(), Step.Create(name, data))
      ensures r == Held ==> records == old(records)
      ensures forall x :: x != name ==> (x in records <==> x in old(records)) && (x in records ==> records[x] == old(records)[x])
      ensures r != Missing ==> View() == Apply(old(View()), Step.Destroy(name))
      ensures Inv(View())
    {
      if name !in records {
        return Missing;
      }
      DestroyInv(View(), name);
      assert EntryOk(View(), name);
      r := Held;
      if records[name].holders == 0 {
        r := Erased;
        NoCalls(holds, name);
        hide Inv;
        erased := erased + {records[name].id};
        records := records - {name};
      }
    }

    /** The part of furi_record_open under the mutex. */
    method OpenBegin(name: string, ghost call: nat)
      requires Inv(View()) && call !in holds
      modifies this`records, this`nextId, this`holds
      ensures View() == Apply(old(View()), Step.OpenBegin(call, name)) && Inv(View())
      ensures name in records && records[name].holders == 1 + if name in old(records) then old(records)[name].holders else 0
      ensures forall x :: x != name ==> (x in records <==> x in old(records)) && (x in records ==> records[x] == old(records)[x])
    {
      ghost var s := View();
      OpenBeginInv(s, call, name);
      hide Inv;
      GetOrCreate(name);
      holds := holds[call := Hold(name, records[name].id, false, 0)];
      records := records[name := records[name].(holders := records[name].holders + 1)];
    }

    /** The return of furi_record_open, once the ready flag is set. */
    method OpenEnd(name: string, ghost call: nat) returns (data: nat)
      requires Inv(View()) && Enabled(View(), Step.OpenEnd(call)) && holds[call].name == name
      modifies this`holds
      ensures View() == Apply(old(View()), Step.OpenEnd(call)) && Inv(View())
      ensures data != 0 && holds[call].id in created && data == created[holds[call].id]
    {
      OpenEndInv(View(), call);
      assert EntryOk(View(), name) && HoldOk(View(), call);
      hide Inv;
      data := records[name].data;
      holds := holds[call := holds[call].(returned := true, result := data)];
    }

    /** furi_record_close */
    method Close(name: string, ghost call: nat)
      requires Inv(View()) && Enabled(View(), Step.Close(call)) && holds[call].name == name
      modifies this`records, this`holds
      ensures View() == Apply(old(View()), Step.Close(call)) && Inv(View())
      ensures name in old(records) && name in records && records[name] == old(records)[name].(holders := old(records)[name].holders - 1)
      ensures forall x :: x != name ==> (x in records <==> x in old(records)) && (x in records ==> records[x] == old(records)[x])
    {
      CloseInv(View(), call);
      hide Inv;
      records := records[name := records[name].(holders := records[name].holders - 1)];
      holds := holds - {call};
    }
  }
}
