/** Many S3 clients on one bucket: each call is a check and then a write, and the two may be
    interleaved with the calls of other clients in any way. */
module S3Clients {
  import opened Outcomes
  import opened Values
  import opened Common
  import opened S3Keys
  import opened S3Store

  /** Where a client is between the check and the write of a call. */
  datatype Phase =
    | Idle
    | InsertChecked(obj: Object, created: bool)
    | UpdateChecked(obj: Object)
    | DeleteChecked(table: string, id: string)

  datatype State = State(docs: Docs, phases: map<nat, Phase>) {
    function PhaseOf(c: nat): Phase {
      if c in phases then phases[c] else Idle
    }
  }

  /** Abandon stands for a call that ends in an error before it writes. */
  datatype Step =
    | InsertCheck(client: nat, obj: Object)
    | InsertUpload(client: nat, now: int, later: int)
    | UpdateCheck(client: nat, obj: Object)
    | UpdateUpload(client: nat, now: int)
    | DeleteCheck(client: nat, table: string, id: string)
    | DeleteObject(client: nat)
    | Abandon(client: nat)

  predicate Enabled(s: State, step: Step) {
    match step
    case InsertCheck(c, _) => s.PhaseOf(c) == Idle
    case InsertUpload(c, _, _) => s.PhaseOf(c).InsertChecked?
    case UpdateCheck(c, _) => s.PhaseOf(c) == Idle
    case UpdateUpload(c, _) => s.PhaseOf(c).UpdateChecked?
    case DeleteCheck(c, _, _) => s.PhaseOf(c) == Idle
    case DeleteObject(c) => s.PhaseOf(c).DeleteChecked?
    case Abandon(c) => s.PhaseOf(c) != Idle
  }

  /** The document an upload writes, or the deletion of a key. */
  datatype Write = NoWrite | WriteDoc(key: string, doc: Doc) | Remove(key: string)

  function WriteOf(prefix: string, norm: Codec, s: State, step: Step): Write
    requires Enabled(s, step)
  {
    match step
    case InsertUpload(c, now, later) =>
      var obj := s.PhaseOf(c).obj;
      WriteDoc(ObjectKey(prefix, obj.tableName, obj.id),
               ObjectDoc(obj.id, obj.tableName, Normed(norm, obj.fields), Some(now), if s.PhaseOf(c).created then None
                         else Some(later)))
    case UpdateUpload(c, now) =>
      var obj := s.PhaseOf(c).obj;
      WriteDoc(ObjectKey(prefix, obj.tableName, obj.id),
               ObjectDoc(obj.id, obj.tableName, Normed(norm, obj.fields), None, Some(now)))
    case DeleteObject(c) => Remove(ObjectKey(prefix, s.PhaseOf(c).table, s.PhaseOf(c).id))
    case _ => NoWrite
  }

  function Written(docs: Docs, w: Write): Docs {
    match w
    case NoWrite => docs
    case WriteDoc(k, doc) => docs[k := doc]
    case Remove(k) => docs - {k}
  }

  function NextPhase(prefix: string, s: State, step: Step): Phase {
    match step
    case InsertCheck(_, obj) => InsertChecked(obj, ObjectKey(prefix, obj.tableName, obj.id) !in s.docs)
    case UpdateCheck(_, obj) => if ObjectKey(prefix, obj.tableName, obj.id) in s.docs then UpdateChecked(obj) else Idle
    case DeleteCheck(_, t, i) => if ObjectKey(prefix, t, i) in s.docs then DeleteChecked(t, i) else Idle
    case _ => Idle
  }

  function Next(prefix: string, norm: Codec, s: State, step: Step): State
    requires Enabled(s, step)
  {
    State(Written(s.docs, WriteOf(prefix, norm, s, step)), s.phases[step.client := NextPhase(prefix, s, step)])
  }

  /** The state after the first n steps; None if one of them was not enabled. */
  function StateAt(prefix: string, norm: Codec, s: State, steps: seq<Step>, n: nat): Option<State>
    requires n <= |steps|
  {
    if n == 0 then Some(s)
    else
      match StateAt(prefix, norm, s, steps, n - 1)
      case None => None
      case Some(before) => if Enabled(before, steps[n - 1]) then Some(Next(prefix, norm, before, steps[n - 1]))
        else None
  }

  predicate Runs(prefix: string, norm: Codec, s: State, steps: seq<Step>) {
    StateAt(prefix, norm, s, steps, |steps|).Some?
  }

  lemma {:induction false} Defined(prefix: string, norm: Codec, s: State, steps: seq<Step>, n: nat, m: nat)
    requires n <= m <= |steps| && StateAt(prefix, norm, s, steps, m).Some?
    ensures StateAt(prefix, norm, s, steps, n).Some?
    ensures n < m ==> Enabled(StateAt(prefix, norm, s, steps, n).value, steps[n])
    decreases m
  {
    hide Enabled, Next;
    if n < m {
      Defined(prefix, norm, s, steps, n, m - 1);
    }
  }

  lemma OneStep(prefix: string, norm: Codec, s: State, steps: seq<Step>, n: nat)
    requires n < |steps| && StateAt(prefix, norm, s, steps, n + 1).Some?
    ensures StateAt(prefix, norm, s, steps, n).Some? && Enabled(StateAt(prefix, norm, s, steps, n).value, steps[n])
    ensures StateAt(prefix, norm, s, steps, n + 1).value ==
            Next(prefix, norm, StateAt(prefix, norm, s, steps, n).value, steps[n])
  {
    hide Enabled, Next;
  }

  // ---------------------------------------------------------------- the steps are the adapter's

  /** An Insert of the adapter is its check and its upload, one right after the other; an object
      that cannot be encoded is given up after the check. */
  method InsertIsItsSteps(store: S3Storage, obj: Object, now: int, later: int, ghost s: State, ghost c: nat)
    returns (out: Outcome<bool>)
    requires store.client != null && store.client.reliable && s.docs == store.client.docs && s.PhaseOf(c) == Idle
    modifies store.client
    ensures Enabled(s, InsertCheck(c, obj))
    ensures var checked := Next(store.prefix, store.norm, s, InsertCheck(c, obj));
            var last := if CanMarshal(store.marshal, obj.fields) then InsertUpload(c, now, later) else Abandon(c);
            && Enabled(checked, last) && store.client.docs == Next(store.prefix, store.norm, checked, last).docs
            && out == if last.Abandon? then Err(CannotMarshal) else Ok(checked.PhaseOf(c).created)
  {
    hide ObjectKey, CanMarshal, Normed;
    out := store.Insert(obj, now, later);
  }

  /** So is an Update; one that does not find its key ends with the check. */
  method UpdateIsItsSteps(store: S3Storage, obj: Object, now: int, ghost s: State, ghost c: nat)
    returns (out: Outcome<bool>)
    requires store.client != null && store.client.reliable && s.docs == store.client.docs && s.PhaseOf(c) == Idle
    modifies store.client
    ensures Enabled(s, UpdateCheck(c, obj))
    ensures var checked := Next(store.prefix, store.norm, s, UpdateCheck(c, obj));
            if checked.PhaseOf(c) == Idle then out == Ok(false) && store.client.docs == checked.docs
            else
              var last := if CanMarshal(store.marshal, obj.fields) then UpdateUpload(c, now) else Abandon(c);
              && Enabled(checked, last) && store.client.docs == Next(store.prefix, store.norm, checked, last).docs
              && out == if last.Abandon? then Err(CannotMarshal) else Ok(true)
  {
    hide ObjectKey, CanMarshal, Normed;
    out := store.Update(obj, now);
  }

  /** And a deletion. */
  method DeleteIsItsSteps(store: S3Storage, table: string, id: string, ghost s: State, ghost c: nat)
    returns (out: Outcome<bool>)
    requires store.client != null && store.client.reliable && s.docs == store.client.docs && s.PhaseOf(c) == Idle
    modifies store.client
    ensures Enabled(s, DeleteCheck(c, table, id))
    ensures var checked := Next(store.prefix, store.norm, s, DeleteCheck(c, table, id));
            if checked.PhaseOf(c) == Idle then out == Ok(false) && store.client.docs == checked.docs
            else
              && Enabled(checked, DeleteObject(c)) && out == Ok(true)
              && store.client.docs == Next(store.prefix, store.norm, checked, DeleteObject(c)).docs
  {
    hide ObjectKey;
    out := store.DeleteByID(table, id);
  }

  // ---------------------------------------------------------------- what every interleaving keeps

  /** Every object lies under the key built from the table and id it carries. */
  ghost predicate KeysMatch(prefix: string, docs: Docs) {
    forall k <- docs :: docs[k].ObjectDoc? ==> k == ObjectKey(prefix, docs[k].tableName, docs[k].id)
  }

  lemma NextKeepsKeys(prefix: string, norm: Codec, s: State, step: Step)
    requires Enabled(s, step) && KeysMatch(prefix, s.docs)
    ensures KeysMatch(prefix, Next(prefix, norm, s, step).docs)
  {
    hide ObjectKey;
  }

  lemma {:induction false} InterleavingsKeepKeys(prefix: string, norm: Codec, s: State, steps: seq<Step>, n: nat)
    requires n <= |steps| && KeysMatch(prefix, s.docs) && StateAt(prefix, norm, s, steps, n).Some?
    ensures KeysMatch(prefix, StateAt(prefix, norm, s, steps, n).value.docs)
  {
    hide KeysMatch, Enabled, Next;
    if n > 0 {
      Defined(prefix, norm, s, steps, n - 1, n);
      InterleavingsKeepKeys(prefix, norm, s, steps, n - 1);
      NextKeepsKeys(prefix, norm, StateAt(prefix, norm, s, steps, n - 1).value, steps[n - 1]);
    }
  }

  // ---------------------------------------------------------------- the created flag

  /** Step n writes or deletes the key. */
  ghost predicate Touches(prefix: string, norm: Codec, s: State, steps: seq<Step>, n: nat, key: string) {
    n < |steps| &&
    match StateAt(prefix, norm, s, steps, n)
    case None => false
    case Some(before) =>
      Enabled(before, steps[n]) &&
      match WriteOf(prefix, norm, before, steps[n])
      case NoWrite => false
      case WriteDoc(k, _) => k == key
      case Remove(k) => k == key
  }

  lemma OneUntouched(prefix: string, norm: Codec, s: State, steps: seq<Step>, n: nat, key: string)
    requires n < |steps| && StateAt(prefix, norm, s, steps, n + 1).Some? && !Touches(prefix, norm, s, steps, n, key)
    ensures StateAt(prefix, norm, s, steps, n).Some?
    ensures var a := StateAt(prefix, norm, s, steps, n).value.docs; var b := StateAt(prefix, norm, s, steps,
            n + 1).value.docs;
            (key in b <==> key in a) && (key in a ==> b[key] == a[key])
  {
    hide ObjectKey;
    Defined(prefix, norm, s, steps, n, n + 1);
  }

  /** What lies under a key stays as it is while no step writes or deletes it. */
  lemma {:induction false} Untouched(prefix: string, norm: Codec, s: State, steps: seq<Step>, n: nat, m: nat,
                                     key: string)
    requires n <= m <= |steps| && StateAt(prefix, norm, s, steps, m).Some?
    requires forall k :: n <= k < m ==> !Touches(prefix, norm, s, steps, k, key)
    ensures StateAt(prefix, norm, s, steps, n).Some?
    ensures var a := StateAt(prefix, norm, s, steps, n).value.docs; var b := StateAt(prefix, norm, s, steps,
            m).value.docs;
            (key in b <==> key in a) && (key in a ==> b[key] == a[key])
    decreases m
  {
    hide StateAt, Touches;
    Defined(prefix, norm, s, steps, n, m);
    if n < m {
      Defined(prefix, norm, s, steps, m - 1, m);
      OneUntouched(prefix, norm, s, steps, m - 1, key);
      Untouched(prefix, norm, s, steps, n, m - 1, key);
    }
  }

  lemma PhaseStays(prefix: string, norm: Codec, s: State, step: Step, c: nat)
    requires Enabled(s, step) && step.client != c
    ensures Next(prefix, norm, s, step).PhaseOf(c) == s.PhaseOf(c)
  {
  }

  lemma {:induction false} PhaseKept(prefix: string, norm: Codec, s: State, steps: seq<Step>, n: nat, m: nat, c: nat)
    requires n <= m <= |steps| && StateAt(prefix, norm, s, steps, m).Some?
    requires forall k :: n <= k < m ==> steps[k].client != c
    ensures StateAt(prefix, norm, s, steps, n).Some?
    ensures StateAt(prefix, norm, s, steps, m).value.PhaseOf(c) == StateAt(prefix, norm, s, steps, n).value.PhaseOf(c)
    decreases m
  {
    hide Enabled, Next;
    Defined(prefix, norm, s, steps, n, m);
    if n < m {
      Defined(prefix, norm, s, steps, m - 1, m);
      PhaseStays(prefix, norm, StateAt(prefix, norm, s, steps, m - 1).value, steps[m - 1], c);
      PhaseKept(prefix, norm, s, steps, n, m - 1, c);
    }
  }

  // ---------------------------------------------------------------- what the touching steps decide

  /** Step n deletes the key. */
  ghost predicate Removes(prefix: string, norm: Codec, s: State, steps: seq<Step>, n: nat, key: string) {
    && Touches(prefix, norm, s, steps, n, key)
    && WriteOf(prefix, norm, StateAt(prefix, norm, s, steps, n).value, steps[n]).Remove?
  }

  /** Step k is the last one from step i up to step j to touch the key. */
  ghost predicate LastTouch(prefix: string, norm: Codec, s: State, steps: seq<Step>, i: nat, j: nat, key: string,
                            k: nat)
  {
    && i <= k < j && Touches(prefix, norm, s, steps, k, key)
    && forall m :: k < m < j ==> !Touches(prefix, norm, s, steps, m, key)
  }

  /** Some step from i up to j touches the key, and the last of them deletes it. */
  ghost predicate LeftRemoved(prefix: string, norm: Codec, s: State, steps: seq<Step>, i: nat, j: nat, key: string) {
    exists k: nat {:trigger LastTouch(prefix, norm, s, steps, i, j, key, k)} ::
      LastTouch(prefix, norm, s, steps, i, j, key, k) && Removes(prefix, norm, s, steps, k, key)
  }

  /** Some step from i up to j touches the key, and the last of them writes it. */
  ghost predicate LeftWritten(prefix: string, norm: Codec, s: State, steps: seq<Step>, i: nat, j: nat, key: string) {
    exists k: nat {:trigger LastTouch(prefix, norm, s, steps, i, j, key, k)} ::
      LastTouch(prefix, norm, s, steps, i, j, key, k) && !Removes(prefix, norm, s, steps, k, key)
  }

  lemma {:induction false} FindLast(prefix: string, norm: Codec, s: State, steps: seq<Step>, i: nat, j: nat,
                                    key: string) returns (k: Option<nat>)
    requires i <= j
    ensures k.Some? ==> LastTouch(prefix, norm, s, steps, i, j, key, k.value)
    ensures k == None ==> forall m :: i <= m < j ==> !Touches(prefix, norm, s, steps, m, key)
    decreases j
  {
    hide Touches;
    if i == j {
      k := None;
    } else if Touches(prefix, norm, s, steps, j - 1, key) {
      k := Some(j - 1);
    } else {
      k := FindLast(prefix, norm, s, steps, i, j - 1, key);
    }
  }

  lemma TouchDecides(prefix: string, norm: Codec, s: State, steps: seq<Step>, k: nat, key: string)
    requires Touches(prefix, norm, s, steps, k, key) && k < |steps| && StateAt(prefix, norm, s, steps, k + 1).Some?
    ensures key in StateAt(prefix, norm, s, steps, k + 1).value.docs <==> !Removes(prefix, norm, s, steps, k, key)
  {
    hide ObjectKey;
    Defined(prefix, norm, s, steps, k, k + 1);
  }

  lemma OnlyOneLast(prefix: string, norm: Codec, s: State, steps: seq<Step>, i: nat, j: nat, key: string, k: nat,
                    m: nat)
    requires LastTouch(prefix, norm, s, steps, i, j, key, k) && LastTouch(prefix, norm, s, steps, i, j, key, m)
    ensures k == m
  {
    hide Touches;
  }

  /** A key is there at step j exactly when the last step since i to touch it wrote it, or none did
      and it was there at i. */
  lemma PresentAt(prefix: string, norm: Codec, s: State, steps: seq<Step>, i: nat, j: nat, key: string)
    requires i <= j <= |steps| && StateAt(prefix, norm, s, steps, j).Some?
    ensures StateAt(prefix, norm, s, steps, i).Some?
    ensures var before := StateAt(prefix, norm, s, steps, i).value.docs; var after := StateAt(prefix, norm, s, steps,
            j).value.docs;
            && (key in after <==>
                  LeftWritten(prefix, norm, s, steps, i, j, key)
                    || (!LeftRemoved(prefix, norm, s, steps, i, j, key) && key in before))
            && !(LeftWritten(prefix, norm, s, steps, i, j, key) && LeftRemoved(prefix, norm, s, steps, i, j, key))
  {
    hide Removes, Touches, StateAt;
    Defined(prefix, norm, s, steps, i, j);
    var k := FindLast(prefix, norm, s, steps, i, j, key);
    if k.Some? {
      Defined(prefix, norm, s, steps, k.value + 1, j);
      TouchDecides(prefix, norm, s, steps, k.value, key);
      Untouched(prefix, norm, s, steps, k.value + 1, j, key);
      forall m: nat | LastTouch(prefix, norm, s, steps, i, j, key, m) ensures m == k.value {
        OnlyOneLast(prefix, norm, s, steps, i, j, key, m, k.value);
      }
    } else {
      Untouched(prefix, norm, s, steps, i, j, key);
    }
  }

  lemma CheckTouchesNothing(prefix: string, norm: Codec, s: State, steps: seq<Step>, i: nat, key: string)
    requires i < |steps| && (steps[i].InsertCheck? || steps[i].UpdateCheck?)
    ensures !Touches(prefix, norm, s, steps, i, key)
  {
  }

  // ---------------------------------------------------------------- an Insert's flag

  /** Step i is the check and step j the upload of one Insert. */
  predicate InsertAt(steps: seq<Step>, i: nat, j: nat, obj: Object) {
    && i < j < |steps| && steps[i].InsertCheck? && steps[i].obj == obj
    && steps[j].InsertUpload? && steps[j].client == steps[i].client
    && forall k :: i < k < j ==> steps[k].client != steps[i].client
  }

  /** The flag that the Insert whose upload is step j reports. */
  ghost function CreatedFlag(prefix: string, norm: Codec, s: State, steps: seq<Step>, j: nat): bool
    requires j < |steps| && StateAt(prefix, norm, s, steps, j).Some?
    requires StateAt(prefix, norm, s, steps, j).value.PhaseOf(steps[j].client).InsertChecked?
  {
    StateAt(prefix, norm, s, steps, j).value.PhaseOf(steps[j].client).created
  }

  /** It says whether the key was absent at the check. */
  lemma FlagIsOfCheck(prefix: string, norm: Codec, s: State, steps: seq<Step>, i: nat, j: nat, obj: Object)
    requires Runs(prefix, norm, s, steps) && InsertAt(steps, i, j, obj)
    ensures StateAt(prefix, norm, s, steps, i).Some? && StateAt(prefix, norm, s, steps, j).Some?
    ensures var key := ObjectKey(prefix, obj.tableName, obj.id);
            var phase := StateAt(prefix, norm, s, steps, j).value.PhaseOf(steps[j].client);
            && phase.InsertChecked? && phase.obj == obj
            && (CreatedFlag(prefix, norm, s, steps, j) <==> key !in StateAt(prefix, norm, s, steps, i).value.docs)
  {
    hide ObjectKey, StateAt;
    Defined(prefix, norm, s, steps, i + 1, |steps|);
    Defined(prefix, norm, s, steps, j, |steps|);
    OneStep(prefix, norm, s, steps, i);
    PhaseKept(prefix, norm, s, steps, i + 1, j, steps[i].client);
  }

  /** At the upload the flag is wrong exactly when the last step to touch the key since the check
      left it the other way: written though reported created, or deleted though reported replaced. */
  lemma CreatedIsRight(prefix: string, norm: Codec, s: State, steps: seq<Step>, i: nat, j: nat, obj: Object)
    requires Runs(prefix, norm, s, steps) && InsertAt(steps, i, j, obj)
    ensures StateAt(prefix, norm, s, steps, j).Some?
            && StateAt(prefix, norm, s, steps, j).value.PhaseOf(steps[j].client).InsertChecked?
    ensures var key := ObjectKey(prefix, obj.tableName, obj.id);
            var created := CreatedFlag(prefix, norm, s, steps, j);
            (created <==> key !in StateAt(prefix, norm, s, steps, j).value.docs) <==>
              !(if created then LeftWritten(prefix, norm, s, steps, i + 1, j, key)
                else LeftRemoved(prefix, norm, s, steps, i + 1, j, key))
  {
    hide ObjectKey, LeftWritten, LeftRemoved, StateAt;
    FlagIsOfCheck(prefix, norm, s, steps, i, j, obj);
    SinceCheck(prefix, norm, s, steps, i, j, obj, j);
  }

  /** Two Inserts of one key are both told that they created the object exactly when it was absent
      at the first check, and at the second too: untouched in between, or deleted again. */
  lemma BothCreated(prefix: string, norm: Codec, s: State, steps: seq<Step>, i: nat, j: nat, x: Object, k: nat, l: nat,
                    y: Object)
    requires Runs(prefix, norm, s, steps) && InsertAt(steps, i, j, x) && InsertAt(steps, k, l, y) && i < k
    requires ObjectKey(prefix, x.tableName, x.id) == ObjectKey(prefix, y.tableName, y.id)
    ensures StateAt(prefix, norm, s, steps, j).Some?
            && StateAt(prefix, norm, s, steps, j).value.PhaseOf(steps[j].client).InsertChecked?
    ensures StateAt(prefix, norm, s, steps, l).Some?
            && StateAt(prefix, norm, s, steps, l).value.PhaseOf(steps[l].client).InsertChecked?
    ensures StateAt(prefix, norm, s, steps, i).Some?
    ensures var key := ObjectKey(prefix, x.tableName, x.id);
            CreatedFlag(prefix, norm, s, steps, j) && CreatedFlag(prefix, norm, s, steps, l) <==>
              key !in StateAt(prefix, norm, s, steps, i).value.docs
                && !LeftWritten(prefix, norm, s, steps, i + 1, k, key)
  {
    hide ObjectKey, LeftWritten, LeftRemoved, StateAt, CreatedFlag;
    FlagIsOfCheck(prefix, norm, s, steps, i, j, x);
    FlagIsOfCheck(prefix, norm, s, steps, k, l, y);
    SinceCheck(prefix, norm, s, steps, i, j, x, k);
  }

  /** Whether an Insert's key is there later, by what was there at its check. */
  lemma SinceCheck(prefix: string, norm: Codec, s: State, steps: seq<Step>, i: nat, j: nat, obj: Object, k: nat)
    requires Runs(prefix, norm, s, steps) && InsertAt(steps, i, j, obj) && i < k <= |steps|
    ensures StateAt(prefix, norm, s, steps, i).Some? && StateAt(prefix, norm, s, steps, k).Some?
    ensures var key := ObjectKey(prefix, obj.tableName, obj.id);
            && (key in StateAt(prefix, norm, s, steps, k).value.docs <==>
                  LeftWritten(prefix, norm, s, steps, i + 1, k, key)
                    || (!LeftRemoved(prefix, norm, s, steps, i + 1, k, key)
                        && key in StateAt(prefix, norm, s, steps, i).value.docs))
            && !(LeftWritten(prefix, norm, s, steps, i + 1, k, key)
                 && LeftRemoved(prefix, norm, s, steps, i + 1, k, key))
  {
    hide ObjectKey, LeftWritten, LeftRemoved, Touches, StateAt;
    var key := ObjectKey(prefix, obj.tableName, obj.id);
    CheckTouchesNothing(prefix, norm, s, steps, i, key);
    Defined(prefix, norm, s, steps, i + 1, |steps|);
    Defined(prefix, norm, s, steps, k, |steps|);
    Untouched(prefix, norm, s, steps, i, i + 1, key);
    PresentAt(prefix, norm, s, steps, i + 1, k, key);
  }

  // ---------------------------------------------------------------- an Update's check

  /** Step i is the check and step j the upload of one Update. */
  predicate UpdateAt(steps: seq<Step>, i: nat, j: nat, obj: Object) {
    && i < j < |steps| && steps[i].UpdateCheck? && steps[i].obj == obj
    && steps[j].UpdateUpload? && steps[j].client == steps[i].client
    && forall k :: i < k < j ==> steps[k].client != steps[i].client
  }

  /** An Update found its key at the check, and writes it at the upload; it brings back an object
      that is gone by then exactly when the last step to touch the key in between deleted it. */
  lemma UpdateBringsBack(prefix: string, norm: Codec, s: State, steps: seq<Step>, i: nat, j: nat, obj: Object)
    requires Runs(prefix, norm, s, steps) && UpdateAt(steps, i, j, obj)
    ensures StateAt(prefix, norm, s, steps, i).Some? && StateAt(prefix, norm, s, steps, j).Some?
    ensures StateAt(prefix, norm, s, steps, j + 1).Some?
    ensures var key := ObjectKey(prefix, obj.tableName, obj.id);
            && key in StateAt(prefix, norm, s, steps, i).value.docs
            && key in StateAt(prefix, norm, s, steps, j + 1).value.docs
            && (key !in StateAt(prefix, norm, s, steps, j).value.docs <==>
                LeftRemoved(prefix, norm, s, steps, i + 1, j, key))
  {
    hide ObjectKey, LeftWritten, LeftRemoved, Touches, StateAt;
    var key := ObjectKey(prefix, obj.tableName, obj.id);
    UpdateFound(prefix, norm, s, steps, i, j, obj);
    CheckTouchesNothing(prefix, norm, s, steps, i, key);
    Defined(prefix, norm, s, steps, i + 1, |steps|);
    Untouched(prefix, norm, s, steps, i, i + 1, key);
    PresentAt(prefix, norm, s, steps, i + 1, j, key);
  }

  lemma UpdateFound(prefix: string, norm: Codec, s: State, steps: seq<Step>, i: nat, j: nat, obj: Object)
    requires Runs(prefix, norm, s, steps) && UpdateAt(steps, i, j, obj)
    ensures StateAt(prefix, norm, s, steps, i).Some? && StateAt(prefix, norm, s, steps, j).Some?
    ensures StateAt(prefix, norm, s, steps, j + 1).Some?
    ensures var key := ObjectKey(prefix, obj.tableName, obj.id);
            && key in StateAt(prefix, norm, s, steps, i).value.docs
            && key in StateAt(prefix, norm, s, steps, j + 1).value.docs
  {
    hide ObjectKey, StateAt;
    Defined(prefix, norm, s, steps, i + 1, |steps|);
    Defined(prefix, norm, s, steps, j, |steps|);
    Defined(prefix, norm, s, steps, j + 1, |steps|);
    OneStep(prefix, norm, s, steps, i);
    OneStep(prefix, norm, s, steps, j);
    PhaseKept(prefix, norm, s, steps, i + 1, j, steps[i].client);
  }

  /** The last step to touch a key decides what lies under it. */
  lemma LastWriteStays(prefix: string, norm: Codec, s: State, steps: seq<Step>, j: nat, key: string)
    requires j < |steps| && Runs(prefix, norm, s, steps) && Touches(prefix, norm, s, steps, j, key)
    requires forall k :: j < k < |steps| ==> !Touches(prefix, norm, s, steps, k, key)
    ensures StateAt(prefix, norm, s, steps, j).Some? && Enabled(StateAt(prefix, norm, s, steps, j).value, steps[j])
    ensures var docs := StateAt(prefix, norm, s, steps, |steps|).value.docs;
            match WriteOf(prefix, norm, StateAt(prefix, norm, s, steps, j).value, steps[j])
            case NoWrite => false
            case WriteDoc(_, doc) => key in docs && docs[key] == doc
            case Remove(_) => key !in docs
  {
    hide ObjectKey;
    Defined(prefix, norm, s, steps, j, |steps|);
    Defined(prefix, norm, s, steps, j + 1, |steps|);
    Untouched(prefix, norm, s, steps, j + 1, |steps|, key);
  }

  // ---------------------------------------------------------------- what it does not promise

  /** The states of a run, one after the other. */
  ghost predicate Trace(prefix: string, norm: Codec, states: seq<State>, steps: seq<Step>) {
    |states| == |steps| + 1 &&
    forall n :: 0 <= n < |steps| ==>
      Enabled(states[n], steps[n]) && states[n + 1] == Next(prefix, norm, states[n], steps[n])
  }

  lemma {:induction false} TraceRuns(prefix: string, norm: Codec, states: seq<State>, steps: seq<Step>, n: nat)
    requires Trace(prefix, norm, states, steps) && n <= |steps|
    ensures StateAt(prefix, norm, states[0], steps, n) == Some(states[n])
  {
    hide Enabled, Next;
    if n > 0 {
      TraceRuns(prefix, norm, states, steps, n - 1);
    }
  }

  /** Check-then-write is not atomic: a client deletes an object, and is told so, between another
      client's check and upload of an Update, and the object is there again. */
  lemma UpdateResurrects(prefix: string, norm: Codec, docs: Docs, obj: Object)
    requires ObjectKey(prefix, obj.tableName, obj.id) in docs
    ensures var steps := [UpdateCheck(0, obj), DeleteCheck(1, obj.tableName, obj.id), DeleteObject(1),
                          UpdateUpload(0, 7)];
            var s := State(docs, map[]); var key := ObjectKey(prefix, obj.tableName, obj.id);
            && Runs(prefix, norm, s, steps) && StateAt(prefix, norm, s, steps, 3).Some?
            && key !in StateAt(prefix, norm, s, steps, 3).value.docs
            && key in StateAt(prefix, norm, s, steps, 4).value.docs
  {
    hide ObjectKey;
    var a, b, c, d := UpdateCheck(0, obj), DeleteCheck(1, obj.tableName, obj.id), DeleteObject(1), UpdateUpload(0, 7);
    var s := State(docs, map[]);
    assert Enabled(s, a);
    var s1 := Next(prefix, norm, s, a);
    assert s1.PhaseOf(0) == UpdateChecked(obj) && Enabled(s1, b);
    var s2 := Next(prefix, norm, s1, b);
    assert s2.PhaseOf(1) == DeleteChecked(obj.tableName, obj.id) && s2.PhaseOf(0) == UpdateChecked(obj)
      && Enabled(s2, c);
    var s3 := Next(prefix, norm, s2, c);
    assert s3.PhaseOf(0) == UpdateChecked(obj) && Enabled(s3, d);
    FourSteps(prefix, norm, [s, s1, s2, s3, Next(prefix, norm, s3, d)], [a, b, c, d]);
  }

  /** Two clients can both be told that they created the same object. */
  lemma BothCreate(prefix: string, norm: Codec, docs: Docs, x: Object, y: Object)
    requires ObjectKey(prefix, x.tableName, x.id) == ObjectKey(prefix, y.tableName, y.id)
    requires ObjectKey(prefix, x.tableName, x.id) !in docs
    ensures var steps := [InsertCheck(0, x), InsertCheck(1, y), InsertUpload(0, 1, 2), InsertUpload(1, 3, 4)]; var s :=
            State(docs, map[]);
            && Runs(prefix, norm, s, steps) && StateAt(prefix, norm, s, steps, 2).Some?
               && StateAt(prefix, norm, s, steps, 3).Some?
            && StateAt(prefix, norm, s, steps, 2).value.PhaseOf(0) == InsertChecked(x, true)
            && StateAt(prefix, norm, s, steps, 3).value.PhaseOf(1) == InsertChecked(y, true)
  {
    hide ObjectKey;
    var a, b, c, d := InsertCheck(0, x), InsertCheck(1, y), InsertUpload(0, 1, 2), InsertUpload(1, 3, 4);
    var s := State(docs, map[]);
    assert Enabled(s, a);
    var s1 := Next(prefix, norm, s, a);
    assert s1.PhaseOf(0) == InsertChecked(x, true) && Enabled(s1, b);
    var s2 := Next(prefix, norm, s1, b);
    assert s2.PhaseOf(1) == InsertChecked(y, true) && s2.PhaseOf(0) == InsertChecked(x, true) && Enabled(s2, c);
    var s3 := Next(prefix, norm, s2, c);
    assert s3.PhaseOf(1) == InsertChecked(y, true) && Enabled(s3, d);
    FourSteps(prefix, norm, [s, s1, s2, s3, Next(prefix, norm, s3, d)], [a, b, c, d]);
  }

  lemma FourSteps(prefix: string, norm: Codec, states: seq<State>, steps: seq<Step>)
    requires |steps| == 4 && Trace(prefix, norm, states, steps)
    ensures Runs(prefix, norm, states[0], steps)
    ensures forall n {:trigger StateAt(prefix, norm, states[0], steps, n)} :: 0 <= n <= 4 ==>
              StateAt(prefix, norm, states[0], steps, n) == Some(states[n])
  {
    hide Enabled, Next, StateAt;
    forall n: nat | n <= 4 ensures StateAt(prefix, norm, states[0], steps, n) == Some(states[n]) {
      TraceRuns(prefix, norm, states, steps, n);
    }
  }
}
