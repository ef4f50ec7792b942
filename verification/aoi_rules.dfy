/** The area-of-interest engine as a transition system: objects with versions and
    flags, hot pairs, updates, and messages. */
module AoiRules {

  type Id = nat

  const AOI_RADIS2: real := 1600.0
  const LEAVE_AOI_RADIS: real := AOI_RADIS2

  datatype Vec = Vec(x: real, y: real, z: real)

  const ORIGIN := Vec(0.0, 0.0, 0.0)

  function Dist2(p: Vec, q: Vec): real {
    (p.x - q.x) * (p.x - q.x) + (p.y - q.y) * (p.y - q.y) + (p.z - q.z) * (p.z - q.z)
  }

  predicate IsNear(p: Vec, q: Vec) { Dist2(p, q) < AOI_RADIS2 * 0.25 }

  /** The four flags are the bits of `mode`. */
  datatype Object = Object(ref: int, version: nat, watcher: bool, marker: bool, move: bool, drop: bool, last: Vec,
                           position: Vec)

  datatype Pair = Pair(watcher: Id, marker: Id, watcherVersion: nat, markerVersion: nat)

  /** All live objects, and the hot pairs, newest first. */
  datatype Space = Space(objects: map<Id, Object>, hot: seq<Pair>)

  const EMPTY := Space(map[], [])

  function NewObject(): Object { Object(1, 0, false, false, false, false, ORIGIN, ORIGIN) }

  // ------------------------------------------------------------ object steps

  function Query(s: Space, id: Id): Space {
    if id in s.objects then s else s.(objects := s.objects[id := NewObject()])
  }

  function Grab(s: Space, id: Id): Space {
    if id in s.objects then s.(objects := s.objects[id := s.objects[id].(ref := s.objects[id].ref + 1)]) else s
  }

  /** One reference to an object less; the last one takes the object. */
  function DropRef(s: Space, id: Id): Space {
    if id !in s.objects then s
    else if s.objects[id].ref - 1 <= 0 then s.(objects := s.objects - {id})
    else s.(objects := s.objects[id := s.objects[id].(ref := s.objects[id].ref - 1)])
  }

  lemma {:induction false} DropRefOthers(s: Space, id: Id, other: Id)
    requires other != id && other in s.objects
    ensures other in DropRef(s, id).objects && DropRef(s, id).hot == s.hot
  {
  }

  lemma {:induction false} DropRefObjects(s: Space, t: Space, id: Id)
    requires s.objects == t.objects
    ensures DropRef(s, id).objects == DropRef(t, id).objects && DropRef(s, id).hot == s.hot
  {
  }

  // ------------------------------------------------------------- aoi_update

  /** What a mode string asks for; the first 'd' ends it. */
  datatype Request = Request(watcher: bool, marker: bool, drop: bool)

  function Scan(mode: string): Request {
    if mode == "" then Request(false, false, false)
    else
      var r := Scan(mode[..|mode| - 1]);
      var c := mode[|mode| - 1];
      if r.drop then r
      else if c == 'w' then r.(watcher := true)
      else if c == 'm' then r.(marker := true)
      else if c == 'd' then r.(drop := true)
      else r
  }

  /** Does a change of the flags (or a new object) count as a change? */
  predicate ModeChanges(o: Object, r: Request) {
    (!o.watcher && !o.marker && !o.move && !o.drop) || o.watcher != r.watcher || o.marker != r.marker
  }

  function Moved(o: Object, r: Request, pos: Vec): Object {
    var o' := o.(watcher := r.watcher, marker := r.marker, position := pos);
    if ModeChanges(o, r) || !IsNear(pos, o.last) then o'.(last := pos, move := true, version := o.version + 1) else o'
  }

  ghost function Update(s: Space, id: Id, mode: string, pos: Vec): Space {
    var t := Query(s, id);
    var o := t.objects[id];
    var r := Scan(mode);
    if r.drop then
      if o.drop then t
      else
        var gone := o.(watcher := false, marker := false, move := false, drop := true);
        DropRef(t.(objects := t.objects[id := gone]), id)
    else
      var o1 := if o.drop then o.(drop := false, ref := o.ref + 1) else o;
      t.(objects := t.objects[id := Moved(o1, r, pos)])
  }

  // ------------------------------------------------------------ aoi_message

  datatype Verdict = Stale | Reported | Kept

  function Judge(w: Object, m: Object, p: Pair): Verdict {
    if w.version != p.watcherVersion || m.version != p.markerVersion || w.drop || m.drop then Stale
    else
      var d := Dist2(w.position, m.position);
      if d > LEAVE_AOI_RADIS then Stale else if d < AOI_RADIS2 then Reported else Kept
  }

  function JudgeIn(s: Space, p: Pair): Verdict {
    if p.watcher in s.objects && p.marker in s.objects then Judge(s.objects[p.watcher], s.objects[p.marker], p)
    else Stale
  }

  ghost function DropPair(s: Space, p: Pair): Space { DropRef(DropRef(s, p.watcher), p.marker) }

  lemma {:induction false} DropPairObjects(s: Space, t: Space, p: Pair)
    requires s.objects == t.objects
    ensures DropPair(s, p).objects == DropPair(t, p).objects && DropPair(s, p).hot == s.hot
  {
    DropRefObjects(s, t, p.watcher);
    DropRefObjects(DropRef(s, p.watcher), DropRef(t, p.watcher), p.marker);
  }

  /** flush_pair has dealt with the pairs `done`: they are dropped, kept or reported. */
  datatype Flush = Flush(space: Space, kept: seq<Pair>, reported: seq<(Id, Id)>)

  ghost function FlushPairs(s: Space, done: seq<Pair>): Flush {
    if done == [] then Flush(s, [], [])
    else
      var f := FlushPairs(s, done[..|done| - 1]);
      var p := done[|done| - 1];
      match JudgeIn(f.space, p)
      case Stale => f.(space := DropPair(f.space, p))
      case Reported => f.(space := DropPair(f.space, p), reported := f.reported + [(p.watcher, p.marker)])
      case Kept => f.(kept := f.kept + [p])
  }

  ghost function Flushed(s: Space): Space {
    var f := FlushPairs(s, s.hot);
    f.space.(hot := f.kept)
  }

  ghost function FlushReports(s: Space): seq<(Id, Id)> { FlushPairs(s, s.hot).reported }

  /** The members of one of the four object sets, in the order of the index. */
  function Members(objects: map<Id, Object>, order: seq<Id>, watchers: bool, moving: bool): seq<Id> {
    if order == [] then []
    else
      var id := order[|order| - 1];
      var rest := Members(objects, order[..|order| - 1], watchers, moving);
      if id in objects && (if watchers then objects[id].watcher else objects[id].marker) && objects[id].move == moving
      then rest + [id] else rest
  }

  /** set_push clears the movement of every object that it puts into a set. */
  function Settle(o: Object): Object { if o.watcher || o.marker then o.(move := false) else o }

  function Settled(objects: map<Id, Object>): map<Id, Object> {
    map id | id in objects :: Settle(objects[id])
  }

  /** gen_pair. */
  function Meet(s: Space, w: Id, m: Id): Space {
    if w == m || w !in s.objects || m !in s.objects then s
    else
      var d := Dist2(s.objects[w].position, s.objects[m].position);
      if d < AOI_RADIS2 || d > LEAVE_AOI_RADIS then s
      else
        Grab(Grab(s, w), m).(hot := [Pair(w, m, s.objects[w].version, s.objects[m].version)] + s.hot)
  }

  predicate Meets(s: Space, w: Id, m: Id) {
    w != m && w in s.objects && m in s.objects && Dist2(s.objects[w].position, s.objects[m].position) < AOI_RADIS2
  }

  /** All pairs of two lists, row by row. */
  function Row(w: Id, ms: seq<Id>): seq<(Id, Id)> {
    if ms == [] then [] else Row(w, ms[..|ms| - 1]) + [(w, ms[|ms| - 1])]
  }

  function Rows(ws: seq<Id>, ms: seq<Id>): seq<(Id, Id)> {
    if ws == [] then [] else Rows(ws[..|ws| - 1], ms) + Row(ws[|ws| - 1], ms)
  }

  function MeetAll(s: Space, pairs: seq<(Id, Id)>): Space {
    if pairs == [] then s
    else
      var p := pairs[|pairs| - 1];
      Meet(MeetAll(s, pairs[..|pairs| - 1]), p.0, p.1)
  }

  function MeetReports(s: Space, pairs: seq<(Id, Id)>): seq<(Id, Id)> {
    if pairs == [] then []
    else
      var p := pairs[|pairs| - 1];
      MeetReports(s, pairs[..|pairs| - 1]) + if Meets(s, p.0, p.1) then [p] else []
  }

  /** The pairs that a message looks at: one of the two has moved. */
  function Candidates(objects: map<Id, Object>, order: seq<Id>): seq<(Id, Id)> {
    var ws, wm := Members(objects, order, true, false), Members(objects, order, true, true);
    var ms, mm := Members(objects, order, false, false), Members(objects, order, false, true);
    Rows(ws, mm) + Rows(wm, ms) + Rows(wm, mm)
  }

  /** aoi_message, when the index lists the objects that are left after the flush as `order`. */
  ghost function Message(s: Space, order: seq<Id>): Space {
    var f := Flushed(s);
    MeetAll(f.(objects := Settled(f.objects)), Candidates(f.objects, order))
  }

  ghost function Reports(s: Space, order: seq<Id>): seq<(Id, Id)> {
    var f := Flushed(s);
    FlushReports(s) + MeetReports(f.(objects := Settled(f.objects)), Candidates(f.objects, order))
  }

  /** Each object once. */
  predicate Lists(order: seq<Id>, objects: map<Id, Object>) {
    && (forall id <- order :: id in objects)
    && (forall id <- objects :: id in order)
    && (forall i, j :: 0 <= i < j < |order| ==> order[i] != order[j])
  }

  // ------------------------------------------------------------------- runs

  datatype Op = OpUpdate(id: Id, mode: string, pos: Vec) | OpMessage(order: seq<Id>)

  ghost predicate Possible(s: Space, op: Op) { op.OpMessage? ==> Lists(op.order, Flushed(s).objects) }

  ghost function Apply(s: Space, op: Op): Space {
    match op
    case OpUpdate(id, mode, pos) => Update(s, id, mode, pos)
    case OpMessage(order) => Message(s, order)
  }

  /** What a run leads to; the orders must fit what the index holds then. */
  datatype Run = Stuck | At(space: Space)

  ghost function RunAll(ops: seq<Op>): Run {
    if ops == [] then At(EMPTY)
    else
      var before := RunAll(ops[..|ops| - 1]);
      if before.At? && Possible(before.space, ops[|ops| - 1]) then At(Apply(before.space, ops[|ops| - 1])) else Stuck
  }
}
