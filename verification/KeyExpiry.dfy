/** Taking out of the agent the keys whose recorded time is up, for a system whose agent
    expires nothing itself. */
module KeyExpiry {
  import opened KeyState
  import opened Text
  import opened Wrappers

  datatype AddedKey = AddedKey(keyFile: string, addedAt: int, expiresAt: Option<int>)

  datatype Ran = NotStarted | Exited(code: int)

  /** What the session meets: whether an ssh-add can be named, how `ssh-add -d` ends, and
      whether a record can be removed. */
  datatype World = World(named: string -> bool, ran: string -> Ran, forgets: string -> bool)

  function AddedOf(r: Record): AddedKey {
    AddedKey(r.keyFile, r.addedAt, ExpiresAt(r))
  }

  function AddedFrom(recs: seq<Record>): seq<AddedKey> {
    if recs == [] then [] else AddedFrom(recs[..|recs| - 1]) + [AddedOf(recs[|recs| - 1])]
  }

  predicate Due(k: AddedKey, now: int) {
    k.keyFile != "" && k.expiresAt.Some? && now >= k.expiresAt.value
  }

  /** The agent was asked, whatever it answered: a refusal is no reason to keep the record. */
  predicate AgentAsked(w: World, k: AddedKey, now: int) {
    Due(k, now) && w.named(k.keyFile) && w.ran(k.keyFile).Exited?
  }

  /** Every key `ssh-add -d` was run for, in order. */
  function Asked(w: World, added: seq<AddedKey>, now: int): seq<string> {
    if added == [] then []
    else
      var last := added[|added| - 1];
      Asked(w, added[..|added| - 1], now) + (if Due(last, now) && w.named(last.keyFile) then [last.keyFile] else [])
  }

  predicate Drops(w: World, k: AddedKey, now: int, name: string) {
    AgentAsked(w, k, now) && w.forgets(k.keyFile) && RecordName(k.keyFile) == Some(name)
  }

  predicate Dropped(w: World, added: seq<AddedKey>, now: int, name: string) {
    exists i :: 0 <= i < |added| && Drops(w, added[i], now, name)
  }

  class Expirer {
    const store: Store
    const world: World
    var asked: seq<string>

    constructor (store: Store, world: World)
      ensures this.store == store && this.world == world && asked == []
    {
      this.store, this.world, asked := store, world, [];
    }

    /** What is recorded as added, or None where the store cannot be read. */
    method Added(text: TimeText, listing: Option<seq<string>>) returns (added: Option<seq<AddedKey>>)
      requires store.enabled
      ensures added == if listing.None? then None else Some(AddedFrom(store.RecordsOf(text, listing.value)))
    {
      if listing.None? {
        return None;
      }
      var recs := store.Records(text, listing.value);
      var keys: seq<AddedKey> := [];
      for i := 0 to |recs|
        invariant keys == AddedFrom(recs[..i])
      {
        assert recs[..i + 1][..i] == recs[..i];
        keys := keys + [AddedOf(recs[i])];
      }
      assert recs[..|recs|] == recs;
      return Some(keys);
    }

    method Remove(k: AddedKey, ghost now: int)
      requires store.enabled && Due(k, now)
      modifies `asked, store
      ensures asked == old(asked) + if world.named(k.keyFile) then [k.keyFile] else []
      ensures forall name :: name in store.files <==>
                name in old(store.files)
                && !(world.named(k.keyFile) && world.ran(k.keyFile) != NotStarted && world.forgets(k.keyFile)
                     && RecordName(k.keyFile) == Some(name))
      ensures forall name <- store.files :: store.files[name] == old(store.files)[name]
    {
      if !world.named(k.keyFile) {
        return;
      }
      asked := asked + [k.keyFile];
      if world.ran(k.keyFile).NotStarted? {
        return;
      }
      if world.forgets(k.keyFile) {
        store.Clear(k.keyFile);
      }
    }

    /** `ssh-add -d` is asked for exactly the keys that are due, as they are listed, and a record
        is gone afterwards exactly when one of those requests reached the agent and it could be
        removed; no other record is touched. */
    method ExpireKeys(text: TimeText, listing: Option<seq<string>>, now: int) returns (ok: bool)
      requires store.enabled && asked == []
      modifies `asked, store
      ensures ok == listing.Some?
      ensures !ok ==> asked == [] && store.files == old(store.files)
      ensures ok ==>
                var added := AddedFrom(old(store.RecordsOf(text, listing.value)));
                && asked == Asked(world, added, now)
                && (forall name :: name in store.files <==>
                      name in old(store.files) && !Dropped(world, added, now, name))
                && (forall name <- store.files :: store.files[name] == old(store.files)[name])
    {
      var list := Added(text, listing);
      if list.None? {
        return false;
      }
      var added := list.value;
      for i := 0 to |added|
        invariant asked == Asked(world, added[..i], now)
        invariant forall name :: name in store.files <==>
                    name in old(store.files) && !Dropped(world, added[..i], now, name)
        invariant forall name <- store.files :: store.files[name] == old(store.files)[name]
      {
        var key := added[i];
        assert added[..i + 1] == added[..i] + [key];
        forall name ensures Dropped(world, added[..i + 1], now, name)
                         <==> Dropped(world, added[..i], now, name) || Drops(world, key, now, name) {
          OneMore(world, added[..i], key, now, name);
        }
        if key.keyFile == "" || key.expiresAt.None? || now < key.expiresAt.value {
          continue;
        }
        Remove(key, now);
      }
      assert added[..|added|] == added;
      return true;
    }
  }

  lemma OneMore(w: World, added: seq<AddedKey>, k: AddedKey, now: int, name: string)
    ensures Dropped(w, added + [k], now, name) <==> Dropped(w, added, now, name) || Drops(w, k, now, name)
    ensures Asked(w, added + [k], now) ==
            Asked(w, added, now) + (if Due(k, now) && w.named(k.keyFile) then [k.keyFile] else [])
  {
    assert (added + [k])[..|added|] == added;
    assert forall i :: 0 <= i < |added| ==> (added + [k])[i] == added[i];
    assert (added + [k])[|added|] == k;
  }

  /** The time of a key that has one is up, and there is an ssh-add to ask. */
  predicate IsAskedFor(w: World, k: AddedKey, now: int) {
    k.keyFile != "" && k.expiresAt.Some? && k.expiresAt.value <= now && w.named(k.keyFile)
  }

  /** ssh-add is asked for those keys and no others, once for each time one is listed, in that
      order. */
  lemma {:induction false} AskedExactly(w: World, added: seq<AddedKey>, now: int)
    ensures forall f :: f in Asked(w, added, now) <==> exists k :: k in added && IsAskedFor(w, k, now) && k.keyFile == f
    ensures added != [] ==>
              var k := added[|added| - 1];
              Asked(w, added, now) == Asked(w, added[..|added| - 1], now) + if IsAskedFor(w, k, now) then [k.keyFile] else []
  {
    if added != [] {
      AskedExactly(w, added[..|added| - 1], now);
      assert added == added[..|added| - 1] + [added[|added| - 1]];
    }
  }

  /** A record goes when ssh-add was asked for a key it is kept under the name of and got as far as
      answering, with whatever answer, and the record can be removed. */
  lemma DroppedBy(w: World, added: seq<AddedKey>, now: int, name: string)
    ensures Dropped(w, added, now, name) <==>
              exists k :: k in added && IsAskedFor(w, k, now) && w.ran(k.keyFile) != NotStarted
                          && w.forgets(k.keyFile) && RecordName(k.keyFile) == Some(name)
  {
    if Dropped(w, added, now, name) {
      var i :| 0 <= i < |added| && Drops(w, added[i], now, name);
      assert added[i] in added;
    }
    forall k | k in added && IsAskedFor(w, k, now) && w.ran(k.keyFile) != NotStarted
               && w.forgets(k.keyFile) && RecordName(k.keyFile) == Some(name)
      ensures Dropped(w, added, now, name)
    {
      var i :| 0 <= i < |added| && added[i] == k;
      assert Drops(w, added[i], now, name);
    }
  }

  // ------------------------------------------------------------------ record by record

  /** What a file holds, read as a record. */
  function Reads(text: TimeText, files: map<string, string>, name: string): Option<Record> {
    if name in files && RecordName(name) == Some(name) then Parsed(text, files[name]) else None
  }

  function RecordsIn(text: TimeText, files: map<string, string>, listing: seq<string>): seq<Record> {
    if listing == [] then []
    else
      var last := Reads(text, files, listing[|listing| - 1]);
      RecordsIn(text, files, listing[..|listing| - 1]) + (if last.Some? then [last.value] else [])
  }

  /** A record that can fall due at all. */
  predicate CanFallDue(r: Option<Record>) {
    r.Some? && r.value.keyFile != "" && ExpiresAt(r.value).Some?
  }

  /** Every record that can fall due is kept under the name of the key it says it is of. */
  predicate WellNamed(text: TimeText, files: map<string, string>) {
    forall name <- files :: NamedRight(Reads(text, files, name), name)
  }

  predicate NamedRight(r: Option<Record>, name: string) {
    CanFallDue(r) ==> RecordName(r.value.keyFile) == Some(name)
  }

  predicate Says(text: TimeText, files: map<string, string>, name: string, k: AddedKey) {
    Reads(text, files, name).Some? && k == AddedOf(Reads(text, files, name).value)
  }

  predicate Listed(text: TimeText, files: map<string, string>, listing: seq<string>, k: AddedKey) {
    exists name <- listing :: Says(text, files, name, k)
  }

  lemma AddedOneMore(recs: seq<Record>, r: Record)
    ensures AddedFrom(recs + [r]) == AddedFrom(recs) + [AddedOf(r)]
  {
    assert (recs + [r])[..|recs|] == recs;
  }

  lemma ListedOneMore(text: TimeText, files: map<string, string>, front: seq<string>, last: string, k: AddedKey)
    ensures Listed(text, files, front + [last], k) <==> Listed(text, files, front, k) || Says(text, files, last, k)
  {
    assert forall name :: name in front + [last] <==> name in front || name == last;
  }

  lemma {:induction false} ListedRecords(text: TimeText, files: map<string, string>, listing: seq<string>, k: AddedKey)
    ensures k in AddedFrom(RecordsIn(text, files, listing)) <==> Listed(text, files, listing, k)
  {
    if listing != [] {
      var front, last := listing[..|listing| - 1], listing[|listing| - 1];
      var more, r := RecordsIn(text, files, front), Reads(text, files, last);
      ListedRecords(text, files, front, k);
      assert listing == front + [last];
      ListedOneMore(text, files, front, last, k);
      if r.Some? {
        AddedOneMore(more, r.value);
      } else {
        assert more + [] == more;
      }
    }
  }

  /** What the store lists is what its files hold: no name in a directory has a slash in it. */
  lemma {:induction false} RecordsAreThoseIn(store: Store, text: TimeText, listing: seq<string>)
    requires store.enabled && forall n <- listing :: '/' !in n
    ensures store.RecordsOf(text, listing) == RecordsIn(text, store.files, listing)
  {
    if listing != [] {
      var last := listing[|listing| - 1];
      RecordsAreThoseIn(store, text, listing[..|listing| - 1]);
      PlainIsItsOwnBase(last);
    }
  }

  /** A record goes by its own request: it names a file, its time is up, an ssh-add could be
      named and started for it, and the record could be removed. */
  predicate DropsItself(w: World, r: Option<Record>, now: int) {
    r.Some? && AgentAsked(w, AddedOf(r.value), now) && w.forgets(r.value.keyFile)
  }

  /** One record goes exactly by its own request, whatever the others ask for. */
  predicate OnItsOwn(text: TimeText, files: map<string, string>, listing: seq<string>, w: World, now: int, name: string) {
    Dropped(w, AddedFrom(RecordsIn(text, files, listing)), now, name) <==> DropsItself(w, Reads(text, files, name), now)
  }

  /** Each record goes by what it says and what came of its own request alone, in every world and
      at every time, if and only if those that can fall due are kept under the right names. */
  lemma SurvivesExactly(text: TimeText, files: map<string, string>, listing: seq<string>)
    requires forall n :: n in listing <==> n in files
    ensures WellNamed(text, files)
       <==> forall w: World, now: int, name: string :: name in files ==> OnItsOwn(text, files, listing, w, now, name)
  {
    hide OnItsOwn, NamedRight, Reads;
    if WellNamed(text, files) {
      forall w: World, now: int, name: string | name in files
        ensures OnItsOwn(text, files, listing, w, now, name)
      {
        DroppedExactly(text, files, listing, w, now, name);
      }
    } else {
      var name :| name in files && !NamedRight(Reads(text, files, name), name);
      NotOnItsOwn(text, files, listing, name);
    }
  }

  lemma DroppedExactly(text: TimeText, files: map<string, string>, listing: seq<string>, w: World, now: int, name: string)
    requires WellNamed(text, files) && name in files
    requires forall n :: n in listing <==> n in files
    ensures OnItsOwn(text, files, listing, w, now, name)
  {
    hide Reads;
    var added := AddedFrom(RecordsIn(text, files, listing));
    if Dropped(w, added, now, name) {
      var i :| 0 <= i < |added| && Drops(w, added[i], now, name);
      ListedRecords(text, files, listing, added[i]);
      var other :| other in listing && Says(text, files, other, added[i]);
      assert NamedRight(Reads(text, files, other), other);
    }
    var r := Reads(text, files, name);
    if DropsItself(w, r, now) {
      assert NamedRight(r, name) && Says(text, files, name, AddedOf(r.value));
      ListedRecords(text, files, listing, AddedOf(r.value));
      var i :| 0 <= i < |added| && added[i] == AddedOf(r.value);
      assert Drops(w, added[i], now, name);
    }
  }

  /** A record under another name, in a world that can name an ssh-add for its key alone: its
      own request reaches the agent, and the record stays. */
  lemma NotOnItsOwn(text: TimeText, files: map<string, string>, listing: seq<string>, name: string)
    requires name in files
    ensures var found := Reads(text, files, name);
            !NamedRight(found, name) ==>
              !OnItsOwn(text, files, listing, OnlyFor(found.value.keyFile), ExpiresAt(found.value).value, name)
  {
    var found := Reads(text, files, name);
    if !NamedRight(found, name) {
      assert DropsItself(OnlyFor(found.value.keyFile), found, ExpiresAt(found.value).value);
    }
  }

  /** Everything works, for one key alone. */
  function OnlyFor(keyFile: string): World {
    World(s => s == keyFile, s => Exited(0), s => true)
  }

  // ---------------------------------------------------------------- a record just written

  /** Some world and some time take the record kept under `name` away. */
  ghost predicate CanBeForgotten(text: TimeText, files: map<string, string>, name: string) {
    exists w: World, now: int :: Dropped(w, AddedFrom(RecordsIn(text, files, [name])), now, name)
  }

  lemma OneRecord(text: TimeText, files: map<string, string>, name: string)
    requires Reads(text, files, name).Some?
    ensures AddedFrom(RecordsIn(text, files, [name])) == [AddedOf(Reads(text, files, name).value)]
  {
    var r := Reads(text, files, name).value;
    var none: seq<Record> := [];
    assert [name][..0] == [];
    assert RecordsIn(text, files, [name]) == none + [r];
    AddedOneMore(none, r);
    assert AddedFrom(none) == [];
  }

  /** A record just written can ever be taken away exactly when its key expires and trimming the
      key's path leaves it naming the same record. Otherwise asking to forget it removes another
      record or none, and it stays however often its key is taken out of the agent. */
  lemma ForgottenExactly(text: TimeText, now: int, lifetime: int, keyFile: string)
    requires Writes(text, now) && Is64(lifetime) && RecordName(keyFile).Some?
    ensures var name := RecordName(keyFile).value;
            && (CanBeForgotten(text, map[name := Body(text, now, lifetime, keyFile)], name)
                <==> Quotient(lifetime, SECOND) > 0 && TrimSpace(keyFile) != ""
                     && RecordName(TrimSpace(keyFile)) == RecordName(keyFile))
  {
    hide Body, RecordName, TrimSpace, Writes, Parsed;
    var name := RecordName(keyFile).value;
    var files := map[name := Body(text, now, lifetime, keyFile)];
    NameNamesItself(keyFile);
    BodyReadsBack(text, now, lifetime, keyFile);
    assert Reads(text, files, name) == Parsed(text, files[name]);
    OneRecord(text, files, name);
    var r := Reads(text, files, name).value;
    if CanFallDue(Some(r)) && RecordName(r.keyFile) == Some(name) {
      var w := World(s => true, s => Exited(0), s => true);
      var added := [AddedOf(r)];
      assert Drops(w, added[0], ExpiresAt(r).value, name);
      assert Dropped(w, added, ExpiresAt(r).value, name);
    }
  }

  /** The same as the name it is kept under: right for a record that never falls due, and
      otherwise exactly when trimming the path does not change its last name. */
  lemma WrittenIsWellNamed(text: TimeText, now: int, lifetime: int, keyFile: string)
    requires Writes(text, now) && Is64(lifetime) && RecordName(keyFile).Some?
    ensures var name := RecordName(keyFile).value;
            && (WellNamed(text, map[name := Body(text, now, lifetime, keyFile)])
                <==> Quotient(lifetime, SECOND) <= 0 || TrimSpace(keyFile) == ""
                     || RecordName(TrimSpace(keyFile)) == RecordName(keyFile))
  {
    hide Body, RecordName, TrimSpace, Writes, Parsed;
    var name := RecordName(keyFile).value;
    var files := map[name := Body(text, now, lifetime, keyFile)];
    NameNamesItself(keyFile);
    BodyReadsBack(text, now, lifetime, keyFile);
    assert Reads(text, files, name) == Parsed(text, files[name]);
  }

  /** Such a path: one that ends in a space. */
  lemma SpaceAtTheEndStays(text: TimeText, now: int, lifetime: int)
    requires Writes(text, now) && Is64(lifetime)
    ensures RecordName("key ") == Some("key ")
    ensures !CanBeForgotten(text, map["key " := Body(text, now, lifetime, "key ")], "key ")
  {
    var path := "key ";
    PlainIsItsOwnBase(path);
    PlainIsItsOwnBase("key");
    assert path[0] == 'k' && !IsSpace(path[0]) && path[..3] == "key";
    assert TrimSpace(path) == TrimSpace(path[..3]) == "key";
    assert |Base("key")| != |Base(path)|;
    ForgottenExactly(text, now, lifetime, path);
  }
}
