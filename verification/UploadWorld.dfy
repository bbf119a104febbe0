/** What a run of the client meets: instances, the saved uploads on its disk, and a script of
    what goes wrong, one turn for every request and every write to the disk. */
module UploadWorld {
  import opened Wrappers
  import opened PartTiling
  import opened UploadServer
  import opened UploadKeys
  import opened UploadSource

  datatype SavedUpload = SavedUpload(id: UploadId, checksum: Digest, size: nat)

  /** The fate of one request or write. The process may die before it, halfway or after it. */
  datatype Fate = Delivered | Lost | Unanswered | Refused(status: nat) | DiedBefore | DiedMidway | DiedAfter

  /** Before the request, the instance may have drifted to another state. */
  datatype Turn = Turn(drift: Option<Server>, fate: Fate)

  datatype Exchange = Answer(reply: Reply) | NoAnswer | Died

  datatype WriteResult = Done | Failed | DiedWriting

  /** A request as it went out to an instance, with what the disk held then. */
  datatype Event = Event(base: Base, call: Call, saved: map<Key, SavedUpload>)

  function NextTurn(script: seq<Turn>): Turn {
    if script == [] then Turn(None, Delivered) else script[0]
  }

  function Rest(script: seq<Turn>): seq<Turn> {
    if script == [] then [] else script[1..]
  }

  /** The instance a request reaches: a drift that could not happen is ignored. */
  function Reached(s: Server, turn: Turn): Server {
    if turn.drift.Some? && Drifts(s, turn.drift.value) then turn.drift.value else s
  }

  /** One request: the instance afterwards, and what the client sees of it. */
  function Serve(s: Server, turn: Turn, call: Call): (Server, Exchange) {
    var at := Reached(s, turn);
    match turn.fate
    case Delivered => (Handle(at, call).0, Answer(Handle(at, call).1))
    case Lost => (at, NoAnswer)
    case Unanswered => (Handle(at, call).0, NoAnswer)
    case Refused(status) => (at, if Reply(status, Nothing).IsOk() then NoAnswer else Answer(Reply(status, Nothing)))
    case DiedBefore => (at, Died)
    case DiedMidway => (at, Died)
    case DiedAfter => (Handle(at, call).0, Died)
  }

  lemma DriftsReflexive(s: Server)
    requires IdsInUse(s)
    ensures Drifts(s, s)
  {
  }

  lemma {:induction false} ServeDrifts(s: Server, turn: Turn, call: Call)
    requires IdsInUse(s)
    ensures Drifts(s, Reached(s, turn)) && Drifts(s, Serve(s, turn, call).0)
  {
    var at := Reached(s, turn);
    HandleDrifts(at, call);
    if at != s { DriftsTransitive(s, at, Handle(at, call).0); }
  }

  // ---- what the disk may be trusted for ----

  /** A saved entry names an upload begun with exactly the bytes, base and target of its key. */
  ghost predicate EntryFine(servers: map<Base, Server>, base: Base, target: Target, checksum: Digest, size: nat,
      entry: SavedUpload) {
    && entry.checksum == checksum && entry.size == size == |checksum.of|
    && base in servers && entry.id < servers[base].next
    && (entry.id in servers[base].uploads ==> Declares(servers[base].uploads[entry.id], target, checksum))
  }

  ghost predicate StoreFine(servers: map<Base, Server>, saved: map<Key, SavedUpload>) {
    && (forall base :: base in servers ==> IdsInUse(servers[base]))
    && forall base, target, checksum, size ::
        !Ambiguous(base) && StateKey(base, target, checksum, size) in saved ==>
        EntryFine(servers, base, target, checksum, size, saved[StateKey(base, target, checksum, size)])
  }

  /** Whatever an instance drifts to, what is saved stays true of it. */
  lemma DriftKeepsStore(servers: map<Base, Server>, saved: map<Key, SavedUpload>, base: Base, t: Server)
    requires StoreFine(servers, saved) && base in servers && Drifts(servers[base], t)
    ensures StoreFine(servers[base := t], saved)
  {
  }

  lemma ForgettingKeepsStore(servers: map<Base, Server>, saved: map<Key, SavedUpload>, key: Key)
    requires StoreFine(servers, saved)
    ensures StoreFine(servers, saved - {key})
  {
  }

  /** Saving an entry that is true of its own upload spoils no other entry, because no other
      upload has its key. */
  lemma SavingKeepsStore(servers: map<Base, Server>, saved: map<Key, SavedUpload>,
                         base: Base, target: Target, checksum: Digest, size: nat, entry: SavedUpload)
    requires StoreFine(servers, saved) && !Ambiguous(base)
    requires EntryFine(servers, base, target, checksum, size, entry)
    ensures StoreFine(servers, saved[StateKey(base, target, checksum, size) := entry])
  {
    var key := StateKey(base, target, checksum, size);
    forall b, t, c, n | !Ambiguous(b) && StateKey(b, t, c, n) == key
      ensures b == base && t == target && c == checksum && n == size
    {
      KeyIsUnique(base, target, checksum, size, b, t, c, n);
    }
  }

  /** One write to the disk, and what is there afterwards. `changed` is the write done. A write that
      fails may leave the file alone, leave it cut short, or be done except for its last step. */
  function Written(saved: map<Key, SavedUpload>, key: Key, changed: map<Key, SavedUpload>,
      fate: Fate): (map<Key, SavedUpload>, WriteResult) {
    match fate
    case Delivered => (changed, Done)
    case Lost => (saved, Failed)
    case Unanswered => (changed, Failed)
    case Refused(_) => (saved - {key}, Failed)
    case DiedBefore => (saved, DiedWriting)
    case DiedMidway => (saved - {key}, DiedWriting)
    case DiedAfter => (changed, DiedWriting)
  }

  /** The instances, the disk and the record of one machine's runs. An entry whose file cannot
      be read, such as one half written, counts as absent. */
  class World {
    var servers: map<Base, Server>
    var saved: map<Key, SavedUpload>
    var script: seq<Turn>
    var log: seq<Event>
    var waited: nat

    ghost predicate Fine()
      reads this
    {
      StoreFine(servers, saved)
    }

    constructor (servers: map<Base, Server>, script: seq<Turn>)
      requires forall base :: base in servers ==> IdsInUse(servers[base])
      ensures Fine() && this.servers == servers && this.script == script && saved == map[] && log == []
    {
      this.servers, this.script := servers, script;
      saved, log, waited := map[], [], 0;
    }

    /** Send one request. */
    method Request(base: Base, call: Call) returns (x: Exchange)
      requires Fine() && base in servers
      modifies this`servers, this`script, this`log
      ensures Fine() && script == Rest(old(script))
      ensures log == old(log) + [Event(base, call, saved)]
      ensures servers == old(servers)[base := Serve(old(servers[base]), NextTurn(old(script)), call).0]
      ensures x == Serve(old(servers[base]), NextTurn(old(script)), call).1
      ensures Drifts(old(servers[base]), servers[base])
    {
      ServeDrifts(servers[base], NextTurn(script), call);
      var (after, seen) := Serve(servers[base], NextTurn(script), call);
      DriftKeepsStore(servers, saved, base, after);
      servers := servers[base := after];
      script := Rest(script);
      log := log + [Event(base, call, saved)];
      return seen;
    }

    /** state.set */
    method Save(base: Base, target: Target, checksum: Digest, size: nat, entry: SavedUpload) returns (r: WriteResult)
      requires Fine() && !Ambiguous(base) && EntryFine(servers, base, target, checksum, size, entry)
      modifies this`saved, this`script
      ensures Fine() && script == Rest(old(script))
      ensures var key := StateKey(base, target, checksum, size);
        (saved, r) == Written(old(saved), key, old(saved)[key := entry], NextTurn(old(script)).fate)
    {
      var key := StateKey(base, target, checksum, size);
      SavingKeepsStore(servers, saved, base, target, checksum, size, entry);
      ForgettingKeepsStore(servers, saved, key);
      var (after, result) := Written(saved, key, saved[key := entry], NextTurn(script).fate);
      saved, script := after, Rest(script);
      return result;
    }

    /** state.delete */
    method Forget(key: Key) returns (r: WriteResult)
      requires Fine()
      modifies this`saved, this`script
      ensures Fine() && script == Rest(old(script))
      ensures (saved, r) == Written(old(saved), key, old(saved) - {key}, NextTurn(old(script)).fate)
    {
      ForgettingKeepsStore(servers, saved, key);
      var (after, result) := Written(saved, key, saved - {key}, NextTurn(script).fate);
      saved, script := after, Rest(script);
      return result;
    }
  }
}
