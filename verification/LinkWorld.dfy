// The host state that link events change behind an actor's back: presence mode and
// generation, the reboot suspicion, login and dictation epochs.

module LinkWorld {
  import opened Bytes

  datatype Mode = Starting | Ready | Busy | Degraded

  datatype Presence = Presence(desired: Mode, desiredGen: nat, acked: nat, supported: Option<bool>)

  // serial tells two requests with the same ID apart.
  datatype Request = Request(id: nat, gen: nat, serial: nat)

  datatype Dictation = Dictation(gen: nat, latest: Option<nat>, active: Option<nat>, recent: seq<nat>,
                                 queued: Option<Request>, serial: nat, closed: bool,
                                 // History: the ID behind each serial, and the serials whose
                                 // request was cancelled or outlived its login.
                                 ids: seq<nat>, over: set<nat>)

  datatype World = World(p: Presence, d: Dictation, reboot: bool, reboots: nat, logins: nat)

  const BOOT := World(Presence(Starting, 1, 0, None), Dictation(1, None, None, [], None, 0, false, [], {}), false, 0, 0)

  // What other tasks and routed link events may do between two steps of an actor.
  datatype Event =
    | Garbage
    | RebootCleared
    | ModeSet(mode: Mode)
    | LinkReset
    | DictateRequest(id: nat)
    | DictateCancel(id: nat)
    | DictateClosed

  // ---- presence --------------------------------------------------------------------------

  function SetMode(p: Presence, mode: Mode): Presence {
    if mode == p.desired then p else p.(desired := mode, desiredGen := p.desiredGen + 1)
  }

  function ResetPresence(p: Presence): Presence {
    Presence(Starting, p.desiredGen + 1, 0, None)
  }

  // The first hint of a reboot moves presence to STARTING at once.
  function MarkReboot(w: World): World {
    if w.reboot then w else w.(reboot := true, reboots := w.reboots + 1, p := ResetPresence(w.p))
  }

  // ---- dictation ---------------------------------------------------------------------------

  const RECENT_LIMIT := 64

  function Without(ids: seq<nat>, id: nat): (r: seq<nat>)
    ensures id !in r && |r| <= |ids|
  {
    if ids == [] then [] else (if ids[0] == id then [] else [ids[0]]) + Without(ids[1..], id)
  }

  function Remember(ids: seq<nat>, id: nat): (r: seq<nat>)
    ensures id in r && |r| <= RECENT_LIMIT
  {
    var all := Without(ids, id) + [id];
    assert all[|all| - 1] == id;
    if |all| > RECENT_LIMIT then
      var kept := all[|all| - RECENT_LIMIT..];
      assert kept[RECENT_LIMIT - 1] == id;
      kept
    else all
  }

  function Submit(d: Dictation, id: nat): Dictation {
    if d.active == Some(id) || d.latest == Some(id) || id in d.recent then d
    else d.(latest := Some(id), queued := Some(Request(id, d.gen, d.serial)), serial := d.serial + 1, ids := d.ids + [id],
            recent := if d.queued.Some? then Remember(d.recent, d.queued.value.id) else d.recent)
  }

  function Cancel(d: Dictation, id: nat): Dictation {
    d.(latest := if d.latest == Some(id) then None else d.latest,
       queued := if d.queued.Some? && d.queued.value.id == id then None else d.queued,
       recent := Remember(d.recent, id),
       over := d.over + set k | 0 <= k < |d.ids| && d.ids[k] == id)
  }

  // Every request so far.
  function Everything(d: Dictation): set<nat> {
    Below(|d.ids|)
  }

  function Below(n: nat): (s: set<nat>)
    ensures forall k: nat :: k in s <==> k < n
  {
    if n == 0 then {} else Below(n - 1) + {n - 1}
  }

  function NewEpoch(d: Dictation): Dictation {
    d.(gen := d.gen + 1, latest := None, active := None, recent := [], queued := None, over := Everything(d))
  }

  function CloseDictation(d: Dictation): Dictation {
    d.(closed := true, gen := d.gen + 1, over := Everything(d))
  }

  predicate Current(d: Dictation, r: Request) {
    !d.closed && r.gen == d.gen && d.latest == Some(r.id)
  }

  // ---- steps ----------------------------------------------------------------------------------

  function LoggedIn(w: World): World {
    w.(logins := w.logins + 1, d := NewEpoch(w.d))
  }

  function Happen(w: World, e: Event): World {
    match e
    case Garbage => MarkReboot(w)
    case RebootCleared => w.(reboot := false)
    case ModeSet(mode) => w.(p := SetMode(w.p, mode))
    case LinkReset => w.(p := ResetPresence(w.p), d := NewEpoch(w.d))
    case DictateRequest(id) => w.(d := Submit(w.d, id))
    case DictateCancel(id) => w.(d := Cancel(w.d, id))
    case DictateClosed => w.(d := CloseDictation(w.d))
  }

  function HappenAll(w: World, es: seq<Event>): World
    decreases es
  {
    if es == [] then w else HappenAll(Happen(w, es[0]), es[1..])
  }

  // What any of these steps may do: generations only grow, the mode changes only with its
  // generation, an acknowledgement is never invented, requests are queued in serial order.
  ghost predicate Evolves(v: World, w: World) {
    && v.p.desiredGen <= w.p.desiredGen && (v.p.desiredGen == w.p.desiredGen ==> v.p.desired == w.p.desired)
    && (w.p.acked == v.p.acked || w.p.acked == 0)
    && v.logins <= w.logins && v.d.gen <= w.d.gen && v.d.serial <= w.d.serial
    && (w.d.queued.Some? ==> w.d.queued == v.d.queued || v.d.serial <= w.d.queued.value.serial)
    && StaysHandled(v.d, w.d)
  }

  // While r is being handled its ID is taken, and once it is over it is not current.
  predicate Handled(d: Dictation, r: Request) {
    && r.serial < |d.ids| && d.ids[r.serial] == r.id && r.gen <= d.gen
    && (r.gen == d.gen && !d.closed ==> d.active == Some(r.id))
    && (r.gen == d.gen && !d.closed && r.serial in d.over ==> d.latest != Some(r.id))
  }

  ghost predicate StaysHandled(c: Dictation, d: Dictation) {
    forall r: Request :: Handled(c, r) ==> Handled(d, r)
  }

  predicate Sound(w: World) {
    && w.p.acked <= w.p.desiredGen && |w.d.ids| == w.d.serial && (forall k :: k in w.d.over ==> k < w.d.serial)
    && (w.d.queued.Some? ==> Waits(w.d, w.d.queued.value))
  }

  // A queued request is not over while dictation is open.
  predicate Waits(d: Dictation, r: Request) {
    r.serial < |d.ids| && d.ids[r.serial] == r.id && r.gen <= d.gen && (r.serial in d.over ==> d.closed)
  }

  lemma {:induction false} HappenAllEvolves(w: World, es: seq<Event>)
    ensures Evolves(w, HappenAll(w, es)) && (Sound(w) ==> Sound(HappenAll(w, es)))
    decreases es
  {
    if es != [] {
      HappenEvolves(w, es[0]);
      HappenAllEvolves(Happen(w, es[0]), es[1..]);
    } else {
      EvolvesSelf(w);
    }
  }

  lemma EvolvesSelf(w: World)
    ensures Evolves(w, w)
  {
  }

  lemma EvolvesThrough(u: World, v: World, w: World)
    requires Evolves(u, v) && Evolves(v, w)
    ensures Evolves(u, w) && u.logins <= v.logins <= w.logins
  {
  }

  lemma HappenEvolves(w: World, e: Event)
    ensures Evolves(w, Happen(w, e)) && (Sound(w) ==> Sound(Happen(w, e)))
  {
  }

  lemma LoginEvolves(w: World)
    ensures Evolves(w, LoggedIn(w)) && (Sound(w) ==> Sound(LoggedIn(w))) && LoggedIn(w).logins == w.logins + 1
  {
  }

  // ---- when a request is current ------------------------------------------------------------------

  // A new ID is queued and current at once; one that is known, or was lately, changes
  // nothing.
  lemma SubmitExactly(d: Dictation, id: nat)
    ensures var t := Submit(d, id); var fresh_ := d.active != Some(id) && d.latest != Some(id) && id !in d.recent;
      && (fresh_ ==> t.queued == Some(Request(id, d.gen, d.serial)) && (!d.closed ==> Current(t, t.queued.value)))
      && (!fresh_ ==> t == d)
  {
  }

  // A cancelled ID is not current, not queued, and known.
  lemma CancelExactly(d: Dictation, r: Request)
    ensures var t := Cancel(d, r.id);
      !Current(t, r) && (t.queued.Some? ==> t.queued == d.queued && t.queued.value.id != r.id) && r.id in t.recent
    ensures forall q: Request :: q.id != r.id ==> (Current(Cancel(d, r.id), q) <==> Current(d, q))
  {
  }

  // It takes a new request for the ID to make it current again.
  lemma {:induction false} CancelledStays(w: World, r: Request, es: seq<Event>)
    requires !Current(w.d, r) && DictateRequest(r.id) !in es
    ensures !Current(HappenAll(w, es).d, r)
    decreases es
  {
    if es != [] {
      CancelledStays(Happen(w, es[0]), r, es[1..]);
    }
  }

  // And after a login, a reset or the end of dictation nothing can.
  lemma {:induction false} OutlivedStays(w: World, r: Request, es: seq<Event>)
    requires r.gen < w.d.gen
    ensures !Current(HappenAll(w, es).d, r)
    decreases es
  {
    if es != [] {
      OutlivedStays(Happen(w, es[0]), r, es[1..]);
    }
  }

  lemma EpochsEnd(w: World, r: Request)
    requires r.gen <= w.d.gen
    ensures r.gen < LoggedIn(w).d.gen && r.gen < Happen(w, LinkReset).d.gen && r.gen < Happen(w, DictateClosed).d.gen
    ensures Happen(w, DictateClosed).d.closed && Happen(w, LinkReset).d.queued.None? && LoggedIn(w).d.queued.None?
  {
  }

  // ---- what mode is wanted ---------------------------------------------------------------------------

  // The mode asked for is the one wanted, under a generation of its own; a reboot or a
  // reset goes back to STARTING with nothing acknowledged.
  lemma ModesWanted(w: World, mode: Mode)
    ensures var t := Happen(w, ModeSet(mode)).p;
      && t.desired == mode && t.acked == w.p.acked && t.supported == w.p.supported
      && t.desiredGen == w.p.desiredGen + if mode == w.p.desired then 0 else 1
    ensures var t := Happen(w, LinkReset).p;
      t.desired == Starting && t.desiredGen > w.p.desiredGen && t.acked == 0 && t.supported.None?
    ensures var t := Happen(w, Garbage);
      && t.reboot && (w.reboot ==> t == w)
      && (!w.reboot ==> t.p.desired == Starting && t.p.desiredGen > w.p.desiredGen && t.p.acked == 0)
    ensures !Happen(w, RebootCleared).reboot && Happen(w, RebootCleared).p == w.p
  {
  }
}
