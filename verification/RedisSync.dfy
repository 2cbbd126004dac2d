/** Copying the primary onto the backup, one scanned key at a time. */
module RedisSync {
  import opened RedisStore
  import opened RedisClient

  datatype SyncResult = Synced(scanned: nat, copied: nat, skipped: nat) | Blocked | NotConfigured

  /** What can be copied: a string, or a hash, list or set with something in it. */
  predicate Copyable(v: Value) {
    match v
    case Text(_) => true
    case Hash(fields) => fields != map[]
    case List(items) => items != []
    case Set(members) => members != {}
    case _ => false
  }

  /** How many of the scanned keys are copied. */
  function Copied(primary: Store, keys: seq<string>): nat {
    if keys == [] then 0
    else Copied(primary, keys[..|keys| - 1]) + if Copyable(At(primary, keys[|keys| - 1])) then 1 else 0
  }

  function AllKeys(pages: seq<seq<string>>): seq<string> {
    if pages == [] then [] else AllKeys(pages[..|pages| - 1]) + pages[|pages| - 1]
  }

  /** The backup holds the primary's value at every scanned key that can be copied, and its own elsewhere. */
  ghost predicate CopiedOver(primary: Store, before: Store, after: Store, keys: seq<string>) {
    forall k :: At(after, k) == if k in keys && Copyable(At(primary, k)) then At(primary, k) else At(before, k)
  }

  lemma CopyOne(primary: Store, before: Store, middle: Store, after: Store, keys: seq<string>, key: string)
    requires CopiedOver(primary, before, middle, keys)
    requires forall k :: At(after, k) == if k == key && Copyable(At(primary, k)) then At(primary, k) else At(middle, k)
    ensures CopiedOver(primary, before, after, keys + [key])
  {
    hide Copyable;
    forall k ensures At(after, k) == if k in keys + [key] && Copyable(At(primary, k)) then At(primary, k) else At(before, k) {
      assert At(middle, k) == if k in keys && Copyable(At(primary, k)) then At(primary, k) else At(before, k);
      assert k in keys + [key] <==> k in keys || k == key;
    }
  }

  /** RPUSH. */
  function RightPush(v: Value, item: string): Value {
    match v
    case Absent => List([item])
    case List(items) => List(items + [item])
    case _ => v
  }

  /** SADD. */
  function SetAdd(v: Value, member: string): Value {
    match v
    case Absent => Set({member})
    case Set(members) => Set(members + {member})
    case _ => v
  }

  lemma Overwrite(s: Store, key: string, a: Value, b: Value)
    ensures s[key := a][key := b] == s[key := b]
  {
  }

  class Synchroniser {
    const databases: Databases
    const hasBackup: bool

    constructor (databases: Databases, hasBackup: bool)
      ensures this.databases == databases && this.hasBackup == hasBackup
    {
      this.databases, this.hasBackup := databases, hasBackup;
    }

    /** Item by item, onto a deleted key. */
    method PushAll(key: string, items: seq<string>)
      requires items != [] && key in databases.backup && databases.backup[key].Absent?
      modifies databases`backup
      ensures databases.backup == old(databases.backup)[key := List(items)]
    {
      ghost var before := databases.backup;
      var k := 0;
      assert before == before[key := Absent];
      while k < |items|
        invariant 0 <= k <= |items|
        invariant databases.backup == before[key := if k == 0 then Absent else List(items[..k])]
      {
        var value := RightPush(databases.backup[key], items[k]);
        assert value == List(items[..k + 1]) by {
          assert items[..k] + [items[k]] == items[..k + 1];
        }
        Overwrite(before, key, databases.backup[key], value);
        databases.backup := databases.backup[key := value];
        k := k + 1;
      }
      assert items[..k] == items;
    }

    /** Member by member, in any order, onto a deleted key. */
    method AddAll(key: string, members: set<string>)
      requires members != {} && key in databases.backup && databases.backup[key].Absent?
      modifies databases`backup
      ensures databases.backup == old(databases.backup)[key := Set(members)]
    {
      ghost var before := databases.backup;
      var added: set<string>, rest := {}, members;
      assert before == before[key := Absent];
      while rest != {}
        invariant added + rest == members && added !! rest
        invariant databases.backup == before[key := if added == {} then Absent else Set(added)]
        decreases |rest|
      {
        var item :| item in rest;
        var value := SetAdd(databases.backup[key], item);
        assert {} + {item} == {item};
        Overwrite(before, key, databases.backup[key], value);
        added, rest := added + {item}, rest - {item};
        databases.backup := databases.backup[key := value];
      }
      assert added == members;
    }

    /** Deletes the key on the backup and rebuilds it from the snapshot. */
    method ReplaceBackupKey(key: string, snapshot: Value)
      requires Copyable(snapshot)
      modifies databases`backup
      ensures databases.backup == old(databases.backup)[key := snapshot]
    {
      Overwrite(databases.backup, key, Absent, snapshot);
      databases.backup := databases.backup[key := Absent];
      match snapshot
      case Text(text) =>
        databases.backup := databases.backup[key := Text(text)];
      case Hash(fields) =>
        databases.backup := databases.backup[key := Hash(fields)];
      case List(items) =>
        PushAll(key, items);
      case Set(members) =>
        AddAll(key, members);
    }

    /** One page of scanned keys. */
    method CopyPage(page: seq<string>, ghost before: Store, ghost earlier: seq<string>) returns (copied: nat)
      requires CopiedOver(databases.primary, before, databases.backup, earlier)
      modifies databases`backup
      ensures copied == Copied(databases.primary, page)
      ensures CopiedOver(databases.primary, before, databases.backup, earlier + page)
    {
      hide Copyable, CopiedOver;
      copied := 0;
      var k := 0;
      assert earlier + page[..0] == earlier;
      while k < |page|
        invariant 0 <= k <= |page| && copied == Copied(databases.primary, page[..k])
        invariant CopiedOver(databases.primary, before, databases.backup, earlier + page[..k])
      {
        ghost var middle := databases.backup;
        if Copyable(At(databases.primary, page[k])) {
          ReplaceBackupKey(page[k], At(databases.primary, page[k]));
          copied := copied + 1;
        }
        CopyOne(databases.primary, before, middle, databases.backup, earlier + page[..k], page[k]);
        assert earlier + page[..k] + [page[k]] == earlier + page[..k + 1];
        assert page[..k + 1][..k] == page[..k];
        k := k + 1;
      }
      assert page[..k] == page;
    }

    /** `pages` are the answers of SCAN until the cursor is back at zero. A promoted backup is never overwritten. */
    method SyncRedisBackup(pages: seq<seq<string>>) returns (r: SyncResult)
      modifies databases`backup
      ensures r.NotConfigured? <==> !hasBackup
      ensures r.Blocked? <==> hasBackup && databases.marker
      ensures !r.Synced? ==> databases.backup == old(databases.backup)
      ensures r.Synced? ==>
        && r.scanned == |AllKeys(pages)| && r.copied == SumCopied(databases.primary, pages) && r.copied + r.skipped == r.scanned
        && CopiedOver(databases.primary, old(databases.backup), databases.backup, AllKeys(pages))
    {
      if !hasBackup {
        return NotConfigured;
      }
      if databases.marker {
        return Blocked;
      }
      hide Copyable, Copied;
      var scanned: nat, copied: nat, skipped: nat := 0, 0, 0;
      ghost var before := databases.backup;
      var p := 0;
      while p < |pages|
        invariant 0 <= p <= |pages| && scanned == |AllKeys(pages[..p])|
        invariant copied == SumCopied(databases.primary, pages[..p]) && copied + skipped == scanned
        invariant CopiedOver(databases.primary, before, databases.backup, AllKeys(pages[..p]))
      {
        hide CopiedOver;
        var more := CopyPage(pages[p], before, AllKeys(pages[..p]));
        CopiedAtMost(databases.primary, pages[p]);
        assert pages[..p + 1][..p] == pages[..p];
        scanned, copied, skipped := scanned + |pages[p]|, copied + more, skipped + |pages[p]| - more;
        p := p + 1;
      }
      assert pages[..p] == pages;
      r := Synced(scanned, copied, skipped);
    }
  }

  function SumCopied(primary: Store, pages: seq<seq<string>>): nat {
    if pages == [] then 0 else SumCopied(primary, pages[..|pages| - 1]) + Copied(primary, pages[|pages| - 1])
  }

  lemma {:induction false} CopiedAtMost(primary: Store, keys: seq<string>)
    ensures Copied(primary, keys) <= |keys|
  {
    if keys != [] { CopiedAtMost(primary, keys[..|keys| - 1]); }
  }

  /** After a scan that saw every key of the primary, the stores agree exactly when the backup held nothing that the
      primary lacks and the primary holds nothing that cannot be copied and differs. */
  lemma SyncMakesCoherentIff(primary: Store, before: Store, after: Store, keys: seq<string>)
    requires CopiedOver(primary, before, after, keys)
    requires forall k :: Copyable(At(primary, k)) ==> k in keys
    ensures SameStore(primary, after) <==> forall k :: !Copyable(At(primary, k)) ==> At(before, k) == At(primary, k)
  {
    hide Copyable;
    if SameStore(primary, after) {
      forall k | !Copyable(At(primary, k)) ensures At(before, k) == At(primary, k) {
        assert At(primary, k) == At(after, k);
      }
    }
    if forall k :: !Copyable(At(primary, k)) ==> At(before, k) == At(primary, k) {
      forall k ensures At(primary, k) == At(after, k) {
        assert At(after, k) == if k in keys && Copyable(At(primary, k)) then At(primary, k) else At(before, k);
      }
    }
  }

  // ---- The report in plain numbers ----

  /** A value that SCAN, TYPE and the reading commands bring over: any string, and what has at least one member. */
  predicate HasContents(v: Value) {
    || v.Text? || (v.Hash? && |v.fields| > 0) || (v.List? && |v.items| > 0) || (v.Set? && |v.members| > 0)
  }

  lemma ContentsAre(v: Value)
    ensures Copyable(v) <==> HasContents(v)
  {
  }

  /** The places at which a key with something under it was scanned. */
  function Places(primary: Store, keys: seq<string>): set<nat> {
    set i | 0 <= i < |keys| && HasContents(At(primary, keys[i]))
  }

  lemma PlacesGrow(primary: Store, keys: seq<string>)
    requires keys != []
    ensures
      var n := |keys| - 1;
      Places(primary, keys) == Places(primary, keys[..n]) + (if HasContents(At(primary, keys[n])) then {n} else {})
      && n !in Places(primary, keys[..n])
  {
    hide HasContents;
    assert forall i :: 0 <= i < |keys| - 1 ==> keys[..|keys| - 1][i] == keys[i];
  }

  lemma {:induction false} CopiedAre(primary: Store, keys: seq<string>)
    ensures Copied(primary, keys) == |Places(primary, keys)|
  {
    hide Copyable, HasContents;
    if keys != [] {
      CopiedAre(primary, keys[..|keys| - 1]);
      PlacesGrow(primary, keys);
      ContentsAre(At(primary, keys[|keys| - 1]));
      hide Places;
    }
  }

  lemma {:induction false} CopiedConcat(primary: Store, a: seq<string>, b: seq<string>)
    ensures Copied(primary, a + b) == Copied(primary, a) + Copied(primary, b)
  {
    hide Copyable;
    if b == [] {
      assert a + b == a;
    } else {
      CopiedConcat(primary, a, b[..|b| - 1]);
      assert (a + b)[..|a + b| - 1] == a + b[..|b| - 1];
    }
  }

  lemma {:induction false} SumIsCopied(primary: Store, pages: seq<seq<string>>)
    ensures SumCopied(primary, pages) == Copied(primary, AllKeys(pages))
  {
    hide Copied;
    if pages == [] {
      assert Copied(primary, []) == 0 by { CopiedAtMost(primary, []); }
    } else {
      SumIsCopied(primary, pages[..|pages| - 1]);
      CopiedConcat(primary, AllKeys(pages[..|pages| - 1]), pages[|pages| - 1]);
    }
  }

  lemma {:induction false} AllKeysAre(pages: seq<seq<string>>, k: string)
    ensures k in AllKeys(pages) <==> exists p :: 0 <= p < |pages| && k in pages[p]
  {
    if pages != [] {
      var n := |pages| - 1;
      AllKeysAre(pages[..n], k);
      if k in AllKeys(pages[..n]) {
        var p :| 0 <= p < n && k in pages[..n][p];
        assert k in pages[p];
      }
      if p :| 0 <= p < |pages| && k in pages[p] {
        assert p < n ==> k in pages[..n][p];
      }
    }
  }

  /** What a synchronisation reports and leaves: every scanned key counts once for each time it was scanned, as copied when
      the primary holds something under it that can be brought over; exactly those keys now hold the primary's value. */
  lemma SyncSays(primary: Store, before: Store, after: Store, pages: seq<seq<string>>, r: SyncResult)
    requires r.Synced? && r.scanned == |AllKeys(pages)| && r.copied == SumCopied(primary, pages) && r.copied + r.skipped == r.scanned
    requires CopiedOver(primary, before, after, AllKeys(pages))
    ensures
      var keys := AllKeys(pages);
      && r.copied == |Places(primary, keys)| && r.skipped == |keys| - r.copied
      && forall k :: At(after, k) == if (exists p :: 0 <= p < |pages| && k in pages[p]) && HasContents(At(primary, k))
                                     then At(primary, k) else At(before, k)
  {
    hide Copyable, HasContents, Copied, SumCopied, AllKeys;
    SumIsCopied(primary, pages);
    CopiedAre(primary, AllKeys(pages));
    forall k ensures At(after, k) == if (exists p :: 0 <= p < |pages| && k in pages[p]) && HasContents(At(primary, k))
                                     then At(primary, k) else At(before, k) {
      AllKeysAre(pages, k);
      ContentsAre(At(primary, k));
    }
  }
}
