/** The auto-bind keys as an index over the table of MT5 accounts. */
module AutoBind {
  import opened Common
  import opened Texts

  /** The fields routing depends on. `server` is the normalised server identity, empty where none is known. */
  datatype Account = Account(id: string, broker: string, environment: string, title: string, login: int, enabled: bool,
                             profile: string, server: string)

  datatype Record = Record(accountId: string, profile: string, login: int, server: string)

  datatype Key = Key(login: int, server: string)

  type Table = map<string, Account>
  type ExactIndex = map<Key, Record>
  type LoginIndex = map<int, Record>

  function RecordOf(a: Account): Record {
    Record(a.id, a.profile, a.login, a.server)
  }

  function KeyOf(a: Account): Key {
    Key(a.login, a.server)
  }

  predicate Active(a: Account) {
    a.enabled && a.profile != ""
  }

  /** Rows are filed under their own id. */
  ghost predicate Filed(table: Table) {
    forall id :: id in table ==> table[id].id == id
  }

  // ---- The login index ----

  /** An enabled account with a profile and this login. */
  predicate ActiveAt(table: Table, id: string, login: int) {
    id in table && table[id].enabled && table[id].profile != "" && table[id].login == login
  }

  /** The one enabled account with a profile and this login, and it has no server. */
  ghost predicate Sole(table: Table, login: int, id: string) {
    ActiveAt(table, id, login) && table[id].server == "" && forall other :: ActiveAt(table, other, login) ==> other == id
  }

  ghost predicate LoginEntryOk(table: Table, login: int, entry: Option<Record>) {
    match entry
    case None => forall id :: !Sole(table, login, id)
    case Some(r) =>
      && Sole(table, login, r.accountId)
      && r.profile == table[r.accountId].profile && r.login == login && r.server == ""
  }

  function EntryAt(byLogin: LoginIndex, login: int): Option<Record> {
    if login in byLogin then Some(byLogin[login]) else None
  }

  /** The login index is what the table says it should be. */
  ghost predicate LoginIndexed(table: Table, byLogin: LoginIndex) {
    forall login :: LoginEntryOk(table, login, EntryAt(byLogin, login))
  }

  // ---- The exact index ----

  ghost predicate EntrySound(table: Table, key: Key, r: Record) {
    && r.accountId in table && key.server != "" && r.login == key.login && r.server == key.server
    && var a := table[r.accountId]; a.enabled && a.profile != "" && r.profile == a.profile && r.login == a.login && r.server == a.server
  }

  /** Every entry routes to an enabled account with that login and server, and to its profile. */
  ghost predicate ExactSound(table: Table, exact: ExactIndex) {
    forall key :: key in exact ==> EntrySound(table, key, exact[key])
  }

  /** Every enabled account with a profile and a server can be found by login and server. */
  ghost predicate ExactComplete(table: Table, exact: ExactIndex) {
    forall id :: id in table && table[id].enabled && table[id].profile != "" && table[id].server != "" ==>
      Key(table[id].login, table[id].server) in exact
  }

  predicate Listed(a: Account) {
    Active(a) && a.server != ""
  }

  function ExactAfter(exact: ExactIndex, previous: Option<Account>, next: Option<Account>): ExactIndex {
    var cleared := if previous.Some? && previous.value.server != "" then exact - {KeyOf(previous.value)} else exact;
    if next.Some? && Listed(next.value) then cleared[KeyOf(next.value) := RecordOf(next.value)] else cleared
  }

  function RowAt(table: Table, id: string): Option<Account> {
    if id in table then Some(table[id]) else None
  }

  /** The tables differ at most in the row of `id`. */
  ghost predicate OnlyRow(before: Table, after: Table, id: string) {
    forall other :: other != id ==> RowAt(before, other) == RowAt(after, other)
  }

  /** Changing a row and its exact entries keeps the exact index sound. */
  lemma ExactStaysSound(before: Table, after: Table, exact: ExactIndex, id: string)
    requires ExactSound(before, exact) && Filed(after) && OnlyRow(before, after, id)
    ensures ExactSound(after, ExactAfter(exact, RowAt(before, id), RowAt(after, id)))
  {
    var e := ExactAfter(exact, RowAt(before, id), RowAt(after, id));
    forall key | key in e ensures EntrySound(after, key, e[key]) {
      if !(id in after && Listed(after[id]) && key == KeyOf(after[id])) {
        assert EntrySound(before, key, exact[key]);
        var other := exact[key].accountId;
        assert RowAt(before, other) == RowAt(after, other) || other == id;
      }
    }
  }

  /** Writing an unchanged row again keeps the exact index sound. */
  lemma RewriteStaysSound(table: Table, exact: ExactIndex, id: string)
    requires ExactSound(table, exact) && Filed(table) && id in table
    ensures ExactSound(table, ExactAfter(exact, None, Some(table[id])))
  {
  }

  /** Another active account shares the key that the change deletes and does not write again. */
  ghost predicate OrphansTwin(after: Table, previous: Option<Account>, next: Option<Account>) {
    && previous.Some? && previous.value.server != ""
    && !(next.Some? && Listed(next.value) && KeyOf(next.value) == KeyOf(previous.value))
    && exists other :: other in after && Active(after[other]) && KeyOf(after[other]) == KeyOf(previous.value)
  }

  /** A change keeps the exact index complete exactly when it orphans no twin. */
  lemma CompletenessKeptIff(before: Table, after: Table, exact: ExactIndex, id: string)
    requires ExactComplete(before, exact) && OnlyRow(before, after, id)
    ensures ExactComplete(after, ExactAfter(exact, RowAt(before, id), RowAt(after, id)))
       <==> !OrphansTwin(after, RowAt(before, id), RowAt(after, id))
  {
    var previous, next := RowAt(before, id), RowAt(after, id);
    var e := ExactAfter(exact, previous, next);
    if OrphansTwin(after, previous, next) {
      var other :| other in after && Active(after[other]) && KeyOf(after[other]) == KeyOf(previous.value);
      assert KeyOf(after[other]) !in e;
    } else {
      forall a | a in after && Active(after[a]) && after[a].server != "" ensures KeyOf(after[a]) in e {
        if a != id { assert RowAt(before, a) == RowAt(after, a); }
      }
    }
  }

  /** The refutation: an enabled account shares login and server with a disabled one; relabelling the disabled one
      deletes the entry of the enabled one, although every other guarantee held before. */
  lemma RelabellingATwinOrphans() returns (before: Table, after: Table, exact: ExactIndex, id: string)
    ensures Filed(before) && ExactSound(before, exact) && ExactComplete(before, exact)
    ensures OnlyRow(before, after, id) && id in before && id in after && after[id] == before[id].(title := "new")
    ensures !ExactComplete(after, ExactAfter(exact, Some(before[id]), Some(after[id])))
  {
    var live := Account("mt5:aaaaaaaa", "B", "live", "a", 7, true, "p", "s");
    var twin := Account("mt5:bbbbbbbb", "C", "live", "b", 7, false, "", "s");
    before := map[live.id := live, twin.id := twin];
    after := map[live.id := live, twin.id := twin.(title := "new")];
    exact := map[Key(7, "s") := RecordOf(live)];
    id := twin.id;
    assert OrphansTwin(after, RowAt(before, id), RowAt(after, id)) by {
      assert live.id in after && Active(after[live.id]) && KeyOf(after[live.id]) == KeyOf(twin);
    }
    CompletenessKeptIff(before, after, exact, id);
  }

  // ---- The login index after a change ----

  lemma SoleUnmoved(before: Table, after: Table, id: string, login: int, other: string)
    requires OnlyRow(before, after, id)
    requires id in before ==> before[id].login != login
    requires id in after ==> after[id].login != login
    ensures Sole(before, login, other) <==> Sole(after, login, other)
  {
    forall a ensures ActiveAt(before, a, login) <==> ActiveAt(after, a, login) {
      assert a == id || RowAt(before, a) == RowAt(after, a);
    }
    assert other == id || RowAt(before, other) == RowAt(after, other);
  }

  /** A change leaves the entries of other logins right. */
  lemma OtherLoginsUnmoved(before: Table, after: Table, id: string, login: int, entry: Option<Record>)
    requires OnlyRow(before, after, id)
    requires id in before ==> before[id].login != login
    requires id in after ==> after[id].login != login
    requires LoginEntryOk(before, login, entry)
    ensures LoginEntryOk(after, login, entry)
  {
    hide Sole;
    forall other ensures Sole(before, login, other) <==> Sole(after, login, other) {
      SoleUnmoved(before, after, id, login, other);
    }
    if entry.Some? {
      SoleIsThere(before, login, entry.value.accountId);
      SoleIsThere(after, login, entry.value.accountId);
      assert RowAt(before, entry.value.accountId) == RowAt(after, entry.value.accountId);
    }
  }

  lemma SoleIsThere(table: Table, login: int, id: string)
    requires Sole(table, login, id)
    ensures id in table && table[id].login == login
  {
  }
}
