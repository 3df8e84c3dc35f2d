/** The alphanumeric display loader: the DPF table lists the displays, the
    DPC table fills their numbered slots with parameter names, and the
    displays are reconciled with the parameter lists a previous load stored
    (the lists marked as coming from the MIB). */
module MibDisplayLoader {
  import opened Wrappers
  import opened Text
  import opened BaseMibLoader
  import opened Collections

  const IDX_DPF_NUMBE: nat := 0
  const IDX_DPF_TYPE: nat := 1
  const IDX_DPF_HEAD: nat := 2

  const IDX_DPC_NUMBE: nat := 0
  const IDX_DPC_NAME: nat := 1
  const IDX_DPC_FLDN: nat := 2

  /** A display has 32 slots when its DPF type is "1" and 64 when it is "3". */
  const SLOTS_TYPE_1: nat := 32
  const SLOTS_TYPE_3: nat := 64

  /** The qualified name of the MIB space system, ending with `/` so that a
      parameter name can be appended to it. */
  function QualifiedPrefix(name: string): (r: string)
    ensures |r| > 0 && r[|r| - 1] == '/'
    ensures StartsWith(r, name) && |name| <= |r| <= |name| + 1
    ensures |name| > 0 && name[|name| - 1] == '/' ==> r == name
  {
    if |name| > 0 && name[|name| - 1] == '/' then name else name + "/"
  }

  /** A display: its number, its heading and its slots, each empty or
      holding a qualified parameter name. */
  datatype MibDisplay = MibDisplay(name: string, description: string, params: seq<Option<string>>)

  /** `MibDisplay.plist`: the filled slots in slot order. */
  function Plist(d: MibDisplay): (r: seq<string>)
    ensures |r| <= |d.params|
  {
    Somes(d.params)
  }

  /** Every filled slot is listed, and only filled slots are. */
  lemma PlistSlots(d: MibDisplay)
    ensures forall s :: 0 <= s < |d.params| && d.params[s].Some? ==> d.params[s].value in Plist(d)
    ensures forall i :: 0 <= i < |Plist(d)| ==> Some(Plist(d)[i]) in d.params
  {
    forall s | 0 <= s < |d.params| && d.params[s].Some?
      ensures d.params[s].value in Plist(d)
    {
      SomesHas(d.params, s);
    }
    forall i | 0 <= i < |Plist(d)|
      ensures Some(Plist(d)[i]) in d.params
    {
      SomesFrom(d.params, i);
    }
  }

  /** The slots are listed in order: the list of two runs of slots is the
      list of the first run followed by that of the second. */
  lemma {:induction false} PlistAppend(a: seq<Option<string>>, b: seq<Option<string>>)
    ensures Somes(a + b) == Somes(a) + Somes(b)
    decreases |b|
  {
    if |b| == 0 {
      assert a + b == a;
    } else {
      assert (a + b)[..|a + b| - 1] == a + b[..|b| - 1];
      PlistAppend(a, b[..|b| - 1]);
    }
  }

  /** `new String[n]`: `n` empty slots. */
  function EmptySlots(n: nat): (r: seq<Option<string>>)
    ensures |r| == n && forall s :: 0 <= s < n ==> r[s].None?
  {
    seq(n, _ => None)
  }

  /** A display with no filled slot lists nothing. */
  lemma {:induction false} PlistEmpty(n: nat)
    ensures Somes(EmptySlots(n)) == []
  {
    if n > 0 {
      assert EmptySlots(n)[..n - 1] == EmptySlots(n - 1);
      PlistEmpty(n - 1);
    }
  }

  // ---------------------------------------------------------------------------
  // DPF

  /** The number of slots of a DPF type, if it is a known one. */
  function DpfSlots(dpfType: string): (r: Option<nat>)
    ensures r.Some? <==> dpfType == "1" || dpfType == "3"
    ensures r == Some(SLOTS_TYPE_1) <==> dpfType == "1"
    ensures r == Some(SLOTS_TYPE_3) <==> dpfType == "3"
  {
    if dpfType == "1" then Some(SLOTS_TYPE_1)
    else if dpfType == "3" then Some(SLOTS_TYPE_3)
    else None
  }

  /** One DPF row: rows with fewer than three columns or an unknown type are
      skipped; the others give an empty display. */
  function DpfRow(line: seq<string>): (r: Option<MibDisplay>)
    ensures r.Some? <==> |line| > IDX_DPF_HEAD && DpfSlots(line[IDX_DPF_TYPE]).Some?
    ensures r.Some? ==>
      && r.value.name == line[IDX_DPF_NUMBE] && r.value.description == line[IDX_DPF_HEAD]
      && |r.value.params| == DpfSlots(line[IDX_DPF_TYPE]).value
      && forall s :: 0 <= s < |r.value.params| ==> r.value.params[s].None?
  {
    if |line| <= IDX_DPF_HEAD then None
    else
      match DpfSlots(line[IDX_DPF_TYPE])
      case None => None
      case Some(n) => Some(MibDisplay(line[IDX_DPF_NUMBE], line[IDX_DPF_HEAD], EmptySlots(n)))
  }

  /** The display of row `i` is the last one of its number among the first `n` rows. */
  predicate LastDpf(t: Table, n: nat, i: int, d: MibDisplay)
    requires n <= |t.lines|
  {
    && 0 <= i < n && DpfRow(t.lines[i].fields) == Some(d)
    && forall j :: i < j < n ==> DpfRow(t.lines[j].fields).None? || DpfRow(t.lines[j].fields).value.name != d.name
  }

  /** The displays read from the first `n` rows: every accepted row's
      number is present, holding the last accepted row of that number. */
  ghost predicate DpfLoaded(t: Table, n: nat, r: map<string, MibDisplay>)
    requires n <= |t.lines|
  {
    && (forall i :: 0 <= i < n && DpfRow(t.lines[i].fields).Some? ==> DpfRow(t.lines[i].fields).value.name in r)
    && (forall k :: k in r ==> r[k].name == k && exists i :: LastDpf(t, n, i, r[k]))
  }

  /** `dpfContent.put` of an accepted row. */
  function PutDpf(displays: map<string, MibDisplay>, line: seq<string>): map<string, MibDisplay> {
    match DpfRow(line)
    case None => displays
    case Some(d) => displays[d.name := d]
  }

  lemma DpfStep(t: Table, n: nat, prev: map<string, MibDisplay>)
    requires 0 < n <= |t.lines| && DpfLoaded(t, n - 1, prev)
    ensures DpfLoaded(t, n, PutDpf(prev, t.lines[n - 1].fields))
  {
    var r := PutDpf(prev, t.lines[n - 1].fields);
    forall k | k in r ensures exists i :: LastDpf(t, n, i, r[k]) {
      var row := DpfRow(t.lines[n - 1].fields);
      if row.Some? && k == row.value.name {
        assert LastDpf(t, n, n - 1, r[k]);
      } else {
        var i :| LastDpf(t, n - 1, i, prev[k]);
        assert LastDpf(t, n, i, r[k]);
      }
    }
  }

  /** `readDpf` over the first `n` rows: a later row of the same number
      replaces an earlier one. */
  function ReadDpfUpTo(t: Table, n: nat): (r: map<string, MibDisplay>)
    requires n <= |t.lines|
    ensures DpfLoaded(t, n, r)
  {
    if n == 0 then map[]
    else
      var prev := ReadDpfUpTo(t, n - 1);
      DpfStep(t, n, prev);
      PutDpf(prev, t.lines[n - 1].fields)
  }

  /** `readDpf`: the displays of the DPF table by number, all slots empty. */
  function ReadDpf(t: Table): (r: map<string, MibDisplay>)
    ensures forall i :: 0 <= i < |t.lines| && DpfRow(t.lines[i].fields).Some? ==> DpfRow(t.lines[i].fields).value.name in r
    ensures forall k :: k in r ==> r[k].name == k && exists i :: LastDpf(t, |t.lines|, i, r[k])
  {
    ReadDpfUpTo(t, |t.lines|)
  }

  /** The displays of the DPF table are empty, of 32 or 64 slots. */
  lemma ReadDpfEmpty(t: Table, k: string)
    requires k in ReadDpf(t)
    ensures |ReadDpf(t)[k].params| in {SLOTS_TYPE_1, SLOTS_TYPE_3}
    ensures Plist(ReadDpf(t)[k]) == []
  {
    var d := ReadDpf(t)[k];
    var i :| LastDpf(t, |t.lines|, i, d);
    assert d.params == EmptySlots(|d.params|);
    PlistEmpty(|d.params|);
  }

  // ---------------------------------------------------------------------------
  // DPC

  function NotANumber(s: string): string {
    "Failed to parse '" + s + "' into a number"
  }

  function InvalidFldn(lineNum: int, s: string, slots: nat): string {
    "Invalid DPC_FLDN on line " + IntToString(lineNum) + ": " + s + "( maximum expected: " + IntToString(slots) + ")"
  }

  /** A DPC row that names a known display and a parameter; the others are
      skipped. */
  predicate DpcApplies(displays: map<string, MibDisplay>, line: seq<string>) {
    |line| > IDX_DPC_FLDN && !IsBlank(line[IDX_DPC_NAME]) && line[IDX_DPC_NUMBE] in displays
  }

  /** A row DPC accepts: skipped, or with a slot number inside the display. */
  predicate DpcValid(displays: map<string, MibDisplay>, line: seq<string>) {
    DpcApplies(displays, line) ==>
      ParseInt(line[IDX_DPC_FLDN]).Some?
      && 0 <= ParseInt(line[IDX_DPC_FLDN]).value < |displays[line[IDX_DPC_NUMBE]].params|
  }

  /** The row fills slot `s` of display `k`. */
  predicate Assigns(displays: map<string, MibDisplay>, line: seq<string>, k: string, s: int) {
    DpcApplies(displays, line) && line[IDX_DPC_NUMBE] == k && ParseInt(line[IDX_DPC_FLDN]) == Some(s)
  }

  /** Two display maps that differ at most in what their slots hold. */
  predicate SameShape(a: map<string, MibDisplay>, b: map<string, MibDisplay>) {
    && a.Keys == b.Keys
    && forall k :: k in a ==>
         b[k].name == a[k].name && b[k].description == a[k].description && |b[k].params| == |a[k].params|
  }

  /** One DPC row: the error cases throw, the others fill one slot with the
      prefixed name, replacing what it held. */
  function DpcRow(displays: map<string, MibDisplay>, prefix: string, lineNum: int, line: seq<string>)
    : (r: Result<map<string, MibDisplay>, string>)
    ensures r.Ok? <==> DpcValid(displays, line)
    ensures r.Ok? ==> SameShape(displays, r.value)
    ensures r.Ok? ==> forall k, s :: k in displays && 0 <= s < |displays[k].params| ==>
      r.value[k].params[s] == if Assigns(displays, line, k, s) then Some(prefix + line[IDX_DPC_NAME]) else displays[k].params[s]
    ensures DpcApplies(displays, line) && ParseInt(line[IDX_DPC_FLDN]).None? ==> r == Err(NotANumber(line[IDX_DPC_FLDN]))
  {
    if |line| <= IDX_DPC_FLDN || IsBlank(line[IDX_DPC_NAME]) || line[IDX_DPC_NUMBE] !in displays then Ok(displays)
    else
      var d := displays[line[IDX_DPC_NUMBE]];
      match ParseInt(line[IDX_DPC_FLDN])
      case None => Err(NotANumber(line[IDX_DPC_FLDN]))
      case Some(f) =>
        if f < 0 || f >= |d.params| then Err(InvalidFldn(lineNum, line[IDX_DPC_FLDN], |d.params|))
        else Ok(displays[line[IDX_DPC_NUMBE] := d.(params := d.params[f := Some(prefix + line[IDX_DPC_NAME])])])
  }

  /** What slot `s` of display `k` holds after the first `n` rows: the name
      of the last row filling it, if any. */
  function SlotAfter(displays: map<string, MibDisplay>, prefix: string, t: Table, k: string, s: int, n: nat): Option<string>
    requires n <= |t.lines|
  {
    if n == 0 then None
    else if Assigns(displays, t.lines[n - 1].fields, k, s) then Some(prefix + t.lines[n - 1].fields[IDX_DPC_NAME])
    else SlotAfter(displays, prefix, t, k, s, n - 1)
  }

  /** `readDpc` over the first `n` rows, starting from the DPF displays. */
  function ReadDpcUpTo(displays: map<string, MibDisplay>, prefix: string, t: Table, n: nat)
    : (r: Result<map<string, MibDisplay>, string>)
    requires n <= |t.lines|
    ensures r.Ok? <==> forall i :: 0 <= i < n ==> DpcValid(displays, t.lines[i].fields)
    ensures r.Ok? ==> SameShape(displays, r.value)
    ensures r.Ok? ==> forall k, s :: k in displays && 0 <= s < |displays[k].params| ==>
      r.value[k].params[s] == if SlotAfter(displays, prefix, t, k, s, n).Some? then SlotAfter(displays, prefix, t, k, s, n)
                              else displays[k].params[s]
  {
    if n == 0 then Ok(displays)
    else
      var prev :- ReadDpcUpTo(displays, prefix, t, n - 1);
      var line := t.lines[n - 1].fields;
      assert DpcValid(prev, line) == DpcValid(displays, line);
      assert forall k, s :: Assigns(prev, line, k, s) == Assigns(displays, line, k, s);
      DpcRow(prev, prefix, t.lines[n - 1].lineNum, line)
  }

  /** `readDpc`: the DPF displays with the slots the DPC table fills, the
      first bad slot number aborting the load. */
  function ReadDpc(dpf: Table, dpc: Table, qualifiedName: string): (r: Result<map<string, MibDisplay>, string>)
    ensures r.Ok? <==> forall i :: 0 <= i < |dpc.lines| ==> DpcValid(ReadDpf(dpf), dpc.lines[i].fields)
    ensures r.Ok? ==> SameShape(ReadDpf(dpf), r.value)
    ensures r.Ok? ==>
      var displays := ReadDpf(dpf);
      forall k, s :: k in displays && 0 <= s < |displays[k].params| ==>
        r.value[k].params[s] == SlotAfter(displays, QualifiedPrefix(qualifiedName), dpc, k, s, |dpc.lines|)
  {
    var displays := ReadDpf(dpf);
    var r :- ReadDpcUpTo(displays, QualifiedPrefix(qualifiedName), dpc, |dpc.lines|);
    assert forall k, s :: k in displays && 0 <= s < |displays[k].params| ==> displays[k].params[s].None? by {
      forall k, s | k in displays && 0 <= s < |displays[k].params|
        ensures displays[k].params[s].None?
      {
        var i :| LastDpf(dpf, |dpf.lines|, i, displays[k]);
      }
    }
    Ok(r)
  }

  /** A filled slot holds the qualified name of the parameter of the last
      DPC row naming it. */
  lemma {:induction false} SlotAfterNamed(displays: map<string, MibDisplay>, prefix: string, t: Table, k: string, s: int, n: nat)
    requires n <= |t.lines|
    requires SlotAfter(displays, prefix, t, k, s, n).Some?
    ensures exists i ::
      && 0 <= i < n && Assigns(displays, t.lines[i].fields, k, s)
      && SlotAfter(displays, prefix, t, k, s, n) == Some(prefix + t.lines[i].fields[IDX_DPC_NAME])
      && forall j :: i < j < n ==> !Assigns(displays, t.lines[j].fields, k, s)
  {
    if !Assigns(displays, t.lines[n - 1].fields, k, s) {
      SlotAfterNamed(displays, prefix, t, k, s, n - 1);
    } else {
      assert Assigns(displays, t.lines[n - 1].fields, k, s);
    }
  }

  // ---------------------------------------------------------------------------
  // Reconciliation with the stored parameter lists

  /** A parameter list stored by an earlier load; the identifier is opaque. */
  datatype StoredList = StoredList(id: nat, name: string, description: Option<string>, patterns: seq<string>)

  /** What happens to a stored list. */
  datatype Outcome = Keep | Update(patterns: seq<string>, description: string) | Delete

  /** The display a stored list is matched with: the one of its name, unless
      an earlier stored list of the same name already took it. */
  function Claimed(stored: seq<StoredList>, displays: map<string, MibDisplay>, k: int): (r: Option<MibDisplay>)
    requires 0 <= k < |stored|
  {
    var name := stored[k].name;
    if name in displays && forall j :: 0 <= j < k ==> stored[j].name != name then Some(displays[name]) else None
  }

  /** A list without a display is deleted; one whose patterns or description
      differ from its display's is updated; the others are kept. */
  function Decide(p: StoredList, d: Option<MibDisplay>): Outcome {
    match d
    case None => Delete
    case Some(d) =>
      if p.patterns != Plist(d) || p.description != Some(d.description) then Update(Plist(d), d.description) else Keep
  }

  /** The first `n` stored lists in order; each takes its display out of
      those still to insert. */
  function ReconcileUpTo(stored: seq<StoredList>, displays: map<string, MibDisplay>, n: nat)
    : (r: (seq<Outcome>, map<string, MibDisplay>))
    requires n <= |stored|
    ensures |r.0| == n
    ensures forall k :: 0 <= k < n ==> r.0[k] == Decide(stored[k], Claimed(stored, displays, k))
    ensures forall name :: name in r.1 <==> name in displays && forall j :: 0 <= j < n ==> stored[j].name != name
    ensures forall name :: name in r.1 ==> r.1[name] == displays[name]
  {
    if n == 0 then ([], displays)
    else
      var prev := ReconcileUpTo(stored, displays, n - 1);
      var p := stored[n - 1];
      if p.name !in prev.1 then
        (prev.0 + [Delete], prev.1)
      else
        (prev.0 + [Decide(p, Some(prev.1[p.name]))], prev.1 - {p.name})
  }

  /** The reconciliation: the outcome for each stored list, and the displays
      left over, each inserted as a new list. */
  function Reconcile(stored: seq<StoredList>, displays: map<string, MibDisplay>): (r: (seq<Outcome>, map<string, MibDisplay>))
    ensures |r.0| == |stored|
    ensures forall k :: 0 <= k < |stored| ==> r.0[k] == Decide(stored[k], Claimed(stored, displays, k))
    ensures forall name :: name in r.1 <==> name in displays && forall j :: 0 <= j < |stored| ==> stored[j].name != name
    ensures forall name :: name in r.1 ==> r.1[name] == displays[name]
  {
    ReconcileUpTo(stored, displays, |stored|)
  }

  /** The stored list after its outcome, if it survives. */
  function Applied(p: StoredList, o: Outcome): Option<StoredList> {
    match o
    case Keep => Some(p)
    case Update(patterns, description) => Some(p.(patterns := patterns, description := Some(description)))
    case Delete => None
  }

  /** The list a left-over display becomes. */
  function Inserted(id: nat, d: MibDisplay): (r: StoredList)
    ensures r.name == d.name && r.description == Some(d.description) && r.patterns == Plist(d)
  {
    StoredList(id, d.name, Some(d.description), Plist(d))
  }

  /** After the reconciliation every display is held by exactly one list
      with its contents: a surviving stored list (same identifier, name,
      patterns and description of its display) or an inserted one, never
      both, and no two surviving lists share a name. */
  lemma ReconcileSynced(stored: seq<StoredList>, displays: map<string, MibDisplay>)
    ensures var r := Reconcile(stored, displays);
      forall k :: 0 <= k < |stored| && Applied(stored[k], r.0[k]).Some? ==>
        var q := Applied(stored[k], r.0[k]).value;
        && q.id == stored[k].id && q.name == stored[k].name
        && q.name in displays && q.name !in r.1
        && q.patterns == Plist(displays[q.name]) && q.description == Some(displays[q.name].description)
    ensures var r := Reconcile(stored, displays);
      forall j, k :: 0 <= j < k < |stored| && Applied(stored[j], r.0[j]).Some? && Applied(stored[k], r.0[k]).Some? ==>
        stored[j].name != stored[k].name
    ensures var r := Reconcile(stored, displays);
      forall name :: name in displays ==>
        name in r.1 || exists k :: 0 <= k < |stored| && stored[k].name == name && Applied(stored[k], r.0[k]).Some?
  {
    var r := Reconcile(stored, displays);
    forall name | name in displays && name !in r.1
      ensures exists k :: 0 <= k < |stored| && stored[k].name == name && Applied(stored[k], r.0[k]).Some?
    {
      var k := FirstNamed(stored, name);
      assert Claimed(stored, displays, k).Some?;
    }
  }

  /** The first stored list of a name that some stored list has. */
  lemma FirstNamed(stored: seq<StoredList>, name: string) returns (k: int)
    requires exists j :: 0 <= j < |stored| && stored[j].name == name
    ensures 0 <= k < |stored| && stored[k].name == name
    ensures forall j :: 0 <= j < k ==> stored[j].name != name
  {
    k := 0;
    while stored[k].name != name
      invariant 0 <= k < |stored|
      invariant forall j :: 0 <= j < k ==> stored[j].name != name
      invariant exists j :: k <= j < |stored| && stored[j].name == name
      decreases |stored| - k
    {
      k := k + 1;
    }
  }

  /** Nothing else changes: a list is kept only if it already matches its
      display, and an update touches only the patterns and description. */
  lemma ReconcileMinimal(stored: seq<StoredList>, displays: map<string, MibDisplay>, k: int)
    requires 0 <= k < |stored|
    ensures var o := Reconcile(stored, displays).0[k];
      && (o == Keep ==>
            && Claimed(stored, displays, k).Some?
            && stored[k].patterns == Plist(Claimed(stored, displays, k).value)
            && stored[k].description == Some(Claimed(stored, displays, k).value.description))
      && (o.Update? ==>
            && Claimed(stored, displays, k).Some?
            && (stored[k].patterns != o.patterns || stored[k].description != Some(o.description)))
      && (o == Delete <==> Claimed(stored, displays, k).None?)
  {
  }

  /** `loadAlphanumericDisplays` once the stored MIB lists are read: read
      the displays, then reconcile; an error reading them stops the load
      before any list changes. */
  function LoadDisplays(stored: seq<StoredList>, dpf: Table, dpc: Table, qualifiedName: string)
    : (r: Result<(seq<Outcome>, map<string, MibDisplay>), string>)
    ensures r.Ok? <==> ReadDpc(dpf, dpc, qualifiedName).Ok?
    ensures r.Ok? ==> r.value == Reconcile(stored, ReadDpc(dpf, dpc, qualifiedName).value)
    ensures r.Ok? ==> forall name :: name in r.value.1 ==> name in ReadDpf(dpf)
  {
    var displays :- ReadDpc(dpf, dpc, qualifiedName);
    Ok(Reconcile(stored, displays))
  }
}
