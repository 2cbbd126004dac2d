/** The account operations that keep the auto-bind keys, each run without interruption. */
module AutoBindRegistry {
  import opened Common
  import opened Texts
  import opened AutoBind
  import OriginKeys

  datatype Error =
    | AlreadyRegistered | LabelRefused | UnknownAccount | ProfileRequired | ProfileAssigned | IdentityInUse

  /** A change of an account; absent fields stay. */
  datatype Patch = Patch(title: Option<string>, enabled: Option<bool>, profile: Option<string>, server: Option<string>)

  /** What a bridge last reported about itself. */
  datatype Heartbeat = Heartbeat(login: int, server: string)

  datatype Outcome = Unresolved | Clash | Mapped(filled: bool)

  /** A row reported by the PC controller, trimmed; `broker` and `environment` are read off profile and server, and
      `freshId` is the random id drawn where the row names none. */
  datatype LocalRow = LocalRow(accountId: string, profile: string, login: int, server: string, enabled: bool,
                               broker: string, environment: string, freshId: string)

  datatype RowOutcome = Skipped | Kept | Updated | Created

  function GetOr<T>(o: Option<T>, default: T): T {
    match o case None => default case Some(v) => v
  }

  /** The accounts of the table, each once, in some order. */
  ghost predicate Lists(table: Table, accounts: seq<Account>) {
    && (forall i :: 0 <= i < |accounts| ==> accounts[i].id in table && table[accounts[i].id] == accounts[i])
    && DifferentIds(accounts)
    && (forall id :: id in table ==> table[id] in accounts)
  }

  ghost predicate DifferentIds(accounts: seq<Account>) {
    forall i, j :: 0 <= i < j < |accounts| ==> accounts[i].id != accounts[j].id
  }

  /** A patch asks for exactly one account. */
  lemma PatchIsOne(current: Account, patch: Patch, next: Account)
    requires next == current.(title := GetOr(patch.title, current.title), enabled := GetOr(patch.enabled, current.enabled),
                              profile := GetOr(patch.profile, current.profile), server := GetOr(patch.server, current.server))
    ensures PatchedBy(next, current, patch)
    ensures forall other :: PatchedBy(other, current, patch) ==> other == next
  {
  }

  lemma FirstNamedIsOne(lower: string -> string, row: LocalRow, accounts: seq<Account>, k: nat)
    requires FirstNamed(lower, row, accounts, k)
    ensures forall i :: FirstNamed(lower, row, accounts, i) ==> i == k
  {
  }

  lemma DifferentSoFar(accounts: seq<Account>, k: nat, enabled: seq<Account>)
    requires DifferentIds(accounts) && k < |accounts| && DifferentIds(enabled)
    requires forall a :: a in enabled ==> a in accounts[..k]
    ensures DifferentIds(enabled + [accounts[k]])
  {
    forall i | 0 <= i < |enabled| ensures enabled[i].id != accounts[k].id {
      assert enabled[i] in accounts[..k];
    }
  }

  lemma EnabledAreActive(table: Table, login: int, accounts: seq<Account>, enabled: seq<Account>)
    requires Lists(table, accounts) && Filed(table)
    requires forall a :: a in enabled <==> a in accounts && Active(a) && a.login == login
    ensures forall i :: 0 <= i < |enabled| ==> ActiveAt(table, enabled[i].id, login) && table[enabled[i].id] == enabled[i]
    ensures forall id :: ActiveAt(table, id, login) ==> table[id] in enabled
  {
    forall i | 0 <= i < |enabled| ensures enabled[i].id in table && table[enabled[i].id] == enabled[i] {
      assert enabled[i] in enabled;
      var j :| 0 <= j < |accounts| && accounts[j] == enabled[i];
    }
  }

  // ---- The operations in the fields of the rows ----

  /** Absent fields of the patch stay; a patch changes nothing but title, switch, profile and server. */
  ghost predicate PatchedBy(next: Account, current: Account, patch: Patch) {
    && next.id == current.id && next.broker == current.broker && next.environment == current.environment && next.login == current.login
    && (if patch.title.Some? then next.title == patch.title.value else next.title == current.title)
    && (if patch.enabled.Some? then next.enabled == patch.enabled.value else next.enabled == current.enabled)
    && (if patch.profile.Some? then next.profile == patch.profile.value else next.profile == current.profile)
    && (if patch.server.Some? then next.server == patch.server.value else next.server == current.server)
  }

  /** Another enabled account has the profile, in any case. */
  ghost predicate ProfileHeld(lower: string -> string, table: Table, next: Account) {
    exists id :: id in table && table[id].id != next.id && table[id].enabled && lower(Trim(table[id].profile)) == lower(next.profile)
  }

  /** Another enabled account has the login on the same server. */
  ghost predicate IdentityHeld(table: Table, next: Account) {
    next.server != "" && exists id :: id in table && table[id].id != next.id
                                      && table[id].enabled && table[id].login == next.login && table[id].server == next.server
  }

  /** The account has the row's id, its profile in any case, or its login on its server. */
  ghost predicate Names(lower: string -> string, row: LocalRow, a: Account) {
    row.accountId == a.id || lower(row.profile) == lower(Trim(a.profile)) || (row.login == a.login && row.server == a.server)
  }

  /** The account takes part in the reconciliation. */
  ghost predicate OnDuty(a: Account) {
    a.enabled && a.profile != ""
  }

  /** Its bridge is alive, has its login, names a server, and names the account's own server if that has one. */
  ghost predicate Agrees(a: Account, heartbeats: string -> Option<Heartbeat>) {
    var h := heartbeats(a.profile);
    h.Some? && h.value.login == a.login && h.value.server != "" && (a.server == "" || a.server == h.value.server)
  }

  /** Its bridge is alive, has its login, and names another server. */
  ghost predicate Clashes(a: Account, heartbeats: string -> Option<Heartbeat>) {
    var h := heartbeats(a.profile);
    h.Some? && h.value.login == a.login && h.value.server != "" && a.server != "" && a.server != h.value.server
  }

  /** The server that the bridge names goes where none was known; nothing else changes. */
  ghost predicate FilledIn(next: Account, a: Account, heartbeats: string -> Option<Heartbeat>) {
    && next.id == a.id && next.broker == a.broker && next.environment == a.environment && next.title == a.title
    && next.login == a.login && next.enabled == a.enabled && next.profile == a.profile
    && next.server == (if OnDuty(a) && a.server == "" && Agrees(a, heartbeats) then heartbeats(a.profile).value.server else a.server)
  }

  /** What the reconciliation counts. */
  datatype Group = All | Confirming | Filled | Conflicting

  ghost predicate Belongs(g: Group, a: Account, heartbeats: string -> Option<Heartbeat>) {
    OnDuty(a) && match g
                 case All => true
                 case Confirming => Agrees(a, heartbeats)
                 case Filled => Agrees(a, heartbeats) && a.server == ""
                 case Conflicting => Clashes(a, heartbeats)
  }

  /** The ids of the accounts of a group. */
  ghost function IdsOf(table: Table, g: Group, heartbeats: string -> Option<Heartbeat>): set<string> {
    set id | id in table && Belongs(g, table[id], heartbeats)
  }

  ghost function IdsBefore(accounts: seq<Account>, k: nat, g: Group, heartbeats: string -> Option<Heartbeat>): set<string>
    requires k <= |accounts|
  {
    if k == 0 then {}
    else IdsBefore(accounts, k - 1, g, heartbeats) + if Belongs(g, accounts[k - 1], heartbeats) then {accounts[k - 1].id} else {}
  }

  lemma {:induction false} InIdsBefore(accounts: seq<Account>, k: nat, g: Group, heartbeats: string -> Option<Heartbeat>, id: string)
    requires k <= |accounts|
    ensures id in IdsBefore(accounts, k, g, heartbeats) <==>
      exists i :: 0 <= i < k && accounts[i].id == id && Belongs(g, accounts[i], heartbeats)
  {
    hide Belongs;
    if k > 0 { InIdsBefore(accounts, k - 1, g, heartbeats, id); }
  }

  lemma IdsGrow(accounts: seq<Account>, k: nat, g: Group, heartbeats: string -> Option<Heartbeat>)
    requires k < |accounts| && DifferentIds(accounts)
    ensures IdsBefore(accounts, k + 1, g, heartbeats)
         == IdsBefore(accounts, k, g, heartbeats) + if Belongs(g, accounts[k], heartbeats) then {accounts[k].id} else {}
    ensures |IdsBefore(accounts, k + 1, g, heartbeats)|
         == |IdsBefore(accounts, k, g, heartbeats)| + if Belongs(g, accounts[k], heartbeats) then 1 else 0
  {
    hide Belongs;
    InIdsBefore(accounts, k, g, heartbeats, accounts[k].id);
  }

  lemma AllIds(table: Table, accounts: seq<Account>, g: Group, heartbeats: string -> Option<Heartbeat>)
    requires Lists(table, accounts) && Filed(table)
    ensures IdsBefore(accounts, |accounts|, g, heartbeats) == IdsOf(table, g, heartbeats)
  {
    hide Belongs;
    forall id ensures id in IdsOf(table, g, heartbeats) <==> id in IdsBefore(accounts, |accounts|, g, heartbeats) {
      InIdsBefore(accounts, |accounts|, g, heartbeats, id);
      if id in table {
        assert table[id] in accounts;
        var i :| 0 <= i < |accounts| && accounts[i] == table[id];
      }
    }
  }

  /** The counters after the first `k` accounts. */
  ghost predicate Tallied(accounts: seq<Account>, k: nat, heartbeats: string -> Option<Heartbeat>,
                          total: nat, mapped: nat, serverFilled: nat, unresolved: nat, conflicts: seq<string>)
    requires k <= |accounts|
  {
    && total == |IdsBefore(accounts, k, All, heartbeats)| && mapped == |IdsBefore(accounts, k, Confirming, heartbeats)|
    && serverFilled == |IdsBefore(accounts, k, Filled, heartbeats)|
    && (forall id :: id in conflicts <==> id in IdsBefore(accounts, k, Conflicting, heartbeats))
    && mapped + unresolved + |conflicts| == total
  }

  /** What an outcome says about the groups of an account. */
  ghost predicate Tells(outcome: Outcome, a: Account, heartbeats: string -> Option<Heartbeat>) {
    && Belongs(All, a, heartbeats) && (Belongs(Confirming, a, heartbeats) <==> outcome.Mapped?)
    && (Belongs(Filled, a, heartbeats) <==> outcome.Mapped? && outcome.filled)
    && (Belongs(Conflicting, a, heartbeats) <==> outcome.Clash?)
  }

  lemma TallyOn(accounts: seq<Account>, k: nat, heartbeats: string -> Option<Heartbeat>, outcome: Outcome,
                total: nat, mapped: nat, serverFilled: nat, unresolved: nat, conflicts: seq<string>)
    requires k < |accounts| && DifferentIds(accounts) && Tells(outcome, accounts[k], heartbeats)
    requires Tallied(accounts, k, heartbeats, total, mapped, serverFilled, unresolved, conflicts)
    ensures Tallied(accounts, k + 1, heartbeats, total + 1, mapped + (if outcome.Mapped? then 1 else 0),
                    serverFilled + (if outcome.Mapped? && outcome.filled then 1 else 0),
                    unresolved + (if outcome.Unresolved? then 1 else 0),
                    if outcome.Clash? then conflicts + [accounts[k].id] else conflicts)
  {
    hide DifferentIds, IdsBefore, Belongs;
    IdsGrow(accounts, k, All, heartbeats);
    IdsGrow(accounts, k, Confirming, heartbeats);
    IdsGrow(accounts, k, Filled, heartbeats);
    IdsGrow(accounts, k, Conflicting, heartbeats);
  }

  lemma TallyOff(accounts: seq<Account>, k: nat, heartbeats: string -> Option<Heartbeat>,
                 total: nat, mapped: nat, serverFilled: nat, unresolved: nat, conflicts: seq<string>)
    requires k < |accounts| && DifferentIds(accounts) && !OnDuty(accounts[k])
    requires Tallied(accounts, k, heartbeats, total, mapped, serverFilled, unresolved, conflicts)
    ensures Tallied(accounts, k + 1, heartbeats, total, mapped, serverFilled, unresolved, conflicts)
  {
    hide OnDuty, DifferentIds, Agrees, Clashes;
  }

  lemma TalliedAll(table: Table, accounts: seq<Account>, heartbeats: string -> Option<Heartbeat>,
                   total: nat, mapped: nat, serverFilled: nat, unresolved: nat, conflicts: seq<string>)
    requires Lists(table, accounts) && Filed(table)
    requires Tallied(accounts, |accounts|, heartbeats, total, mapped, serverFilled, unresolved, conflicts)
    ensures total == |IdsOf(table, All, heartbeats)| && mapped == |IdsOf(table, Confirming, heartbeats)|
    ensures serverFilled == |IdsOf(table, Filled, heartbeats)|
    ensures forall id :: id in conflicts <==> id in IdsOf(table, Conflicting, heartbeats)
    ensures mapped + unresolved + |conflicts| == total
  {
    forall g ensures IdsBefore(accounts, |accounts|, g, heartbeats) == IdsOf(table, g, heartbeats) {
      AllIds(table, accounts, g, heartbeats);
    }
    hide IdsBefore, IdsOf;
  }

  lemma NothingTallied(table: Table, exact: ExactIndex, accounts: seq<Account>, heartbeats: string -> Option<Heartbeat>)
    requires Lists(table, accounts)
    ensures DifferentIds(accounts) && ReconciledTo(table, accounts, 0, heartbeats) && WrittenTo(exact, accounts, 0, heartbeats)
    ensures Tallied(accounts, 0, heartbeats, 0, 0, 0, 0, [])
  {
  }

  lemma DutyIsActive(a: Account)
    ensures OnDuty(a) <==> Active(a)
  {
  }

  /** The first listed account that the row names. */
  ghost predicate FirstNamed(lower: string -> string, row: LocalRow, accounts: seq<Account>, k: int) {
    0 <= k < |accounts| && Names(lower, row, accounts[k]) && forall i :: 0 <= i < k ==> !Names(lower, row, accounts[i])
  }

  class Registry {
    const lower: string -> string
    var table: Table
    var exact: ExactIndex
    var byLogin: LoginIndex

    ghost predicate Valid()
      reads this
    {
      Filed(table) && LoginIndexed(table, byLogin) && ExactSound(table, exact)
    }

    constructor (lower: string -> string)
      ensures Valid() && table == map[] && ExactComplete(table, exact) && this.lower == lower
    {
      this.lower := lower;
      table, exact, byLogin := map[], map[], map[];
    }

    /** Reads the whole table; the order of the rows is left open. */
    method ListAccounts() returns (accounts: seq<Account>)
      requires Filed(table)
      ensures Lists(table, accounts)
    {
      accounts := [];
      var rest := table.Keys;
      while rest != {}
        invariant rest <= table.Keys
        invariant forall i :: 0 <= i < |accounts| ==> accounts[i].id in table.Keys - rest && table[accounts[i].id] == accounts[i]
        invariant forall i, j :: 0 <= i < j < |accounts| ==> accounts[i].id != accounts[j].id
        invariant forall id :: id in table && id !in rest ==> table[id] in accounts
        decreases |rest|
      {
        var id :| id in rest;
        rest := rest - {id};
        accounts := accounts + [table[id]];
      }
    }

    static method EnabledAccounts(accounts: seq<Account>, login: int) returns (enabled: seq<Account>)
      requires DifferentIds(accounts)
      ensures DifferentIds(enabled)
      ensures forall a :: a in enabled <==> a in accounts && Active(a) && a.login == login
    {
      hide Active;
      enabled := [];
      var k := 0;
      while k < |accounts|
        invariant 0 <= k <= |accounts| && DifferentIds(enabled)
        invariant forall a :: a in enabled <==> a in accounts[..k] && Active(a) && a.login == login
      {
        assert accounts[..k + 1] == accounts[..k] + [accounts[k]];
        if Active(accounts[k]) && accounts[k].login == login {
          DifferentSoFar(accounts, k, enabled);
          enabled := enabled + [accounts[k]];
        }
        k := k + 1;
      }
      assert accounts[..k] == accounts;
    }

    /** Recomputes the login key. */
    method SyncLogin(login: int)
      requires Filed(table)
      modifies this`byLogin
      ensures LoginEntryOk(table, login, EntryAt(byLogin, login))
      ensures forall l :: l != login ==> EntryAt(byLogin, l) == EntryAt(old(byLogin), l)
    {
      var accounts := ListAccounts();
      var enabled := EnabledAccounts(accounts, login);
      EnabledAreActive(table, login, accounts, enabled);
      SoleOfListed(table, login, enabled);
      if |enabled| == 1 && enabled[0].server == "" {
        byLogin := byLogin[login := RecordOf(enabled[0])];
        return;
      }
      byLogin := byLogin - {login};
    }

    method DeleteExact(account: Account)
      modifies this`exact
      ensures exact == if account.server == "" then old(exact) else old(exact) - {KeyOf(account)}
    {
      if account.server == "" {
        return;
      }
      exact := exact - {KeyOf(account)};
    }

    method WriteExact(account: Account)
      modifies this`exact
      ensures exact == if Listed(account) then old(exact)[KeyOf(account) := RecordOf(account)] else old(exact)
    {
      if !account.enabled || account.profile == "" || account.server == "" {
        return;
      }
      exact := exact[KeyOf(account) := RecordOf(account)];
    }

    /** Deletes the old exact key, writes the new one, and recomputes the login keys of both logins. `before` is the
        table before the row of `id` was written. */
    method SyncAutoBind(previous: Option<Account>, next: Option<Account>, ghost before: Table, ghost id: string)
      requires Filed(table) && OnlyRow(before, table, id) && LoginIndexed(before, byLogin)
      requires RowAt(table, id) == next
      requires previous == RowAt(before, id) || (previous.None? && before == table)
      modifies this`exact, this`byLogin
      ensures LoginIndexed(table, byLogin)
      ensures exact == ExactAfter(old(exact), previous, next)
    {
      hide Filed, Sole, LoginEntryOk, OnlyRow;
      if previous.Some? {
        DeleteExact(previous.value);
      }
      if next.Some? {
        WriteExact(next.value);
      }
      ghost var byLogin0 := byLogin;
      if previous.Some? {
        SyncLogin(previous.value.login);
      }
      if next.Some? && !(previous.Some? && previous.value.login == next.value.login) {
        SyncLogin(next.value.login);
      }
      forall login ensures LoginEntryOk(table, login, EntryAt(byLogin, login)) {
        assert LoginEntryOk(before, login, EntryAt(byLogin0, login));
        if !(id in before && before[id].login == login) && !(id in table && table[id].login == login) {
          OtherLoginsUnmoved(before, table, id, login, EntryAt(byLogin0, login));
        }
      }
    }

    /** Writes the row of one account and brings the keys up to date. */
    method WriteRow(next: Account)
      requires Valid()
      modifies this
      ensures Valid() && table == old(table)[next.id := next]
      ensures exact == ExactAfter(old(exact), RowAt(old(table), next.id), Some(next))
    {
      hide LoginIndexed, ExactSound;
      ghost var before := table;
      var previous := if next.id in table then Some(table[next.id]) else None;
      table := table[next.id := next];
      ExactStaysSound(before, table, exact, next.id);
      SyncAutoBind(previous, Some(next), before, next.id);
    }

    /** A new account starts disabled; a second one for the same login, broker and environment is refused. */
    method CreateAccount(account: Account, labelFree: bool) returns (r: Result<Account, Error>)
      requires Valid() && account.id !in table
      modifies this
      ensures Valid()
      ensures r == Fail(AlreadyRegistered) <==>
        exists id :: id in old(table) && var a := old(table)[id];
          a.login == account.login && lower(a.broker) == lower(account.broker) && a.environment == account.environment
      ensures r == Fail(LabelRefused) ==> !labelFree
      ensures r.Fail? ==> table == old(table) && exact == old(exact)
      ensures r.Ok? ==> labelFree && r.value == account.(enabled := false) && table == old(table)[account.id := r.value]
      ensures r.Ok? ==> exact == old(exact)
    {
      var accounts := ListAccounts();
      var k := 0;
      while k < |accounts|
        invariant 0 <= k <= |accounts|
        invariant forall i :: 0 <= i < k ==> !SameRegistration(accounts[i], account)
      {
        if SameRegistration(accounts[k], account) {
          return Fail(AlreadyRegistered);
        }
        k := k + 1;
      }
      if !labelFree {
        return Fail(LabelRefused);
      }
      WriteRow(account.(enabled := false));
      r := Ok(account.(enabled := false));
    }

    predicate SameRegistration(a: Account, b: Account) {
      a.login == b.login && lower(a.broker) == lower(b.broker) && a.environment == b.environment
    }

    /** The account a patch asks for. */
    function Patched(current: Account, patch: Patch): Account {
      current.(title := GetOr(patch.title, current.title), enabled := GetOr(patch.enabled, current.enabled),
               profile := GetOr(patch.profile, current.profile), server := GetOr(patch.server, current.server))
    }

    predicate ProfileTaken(other: Account, next: Account) {
      other.id != next.id && other.enabled && lower(Trim(other.profile)) == lower(next.profile)
    }

    predicate IdentityTaken(other: Account, next: Account) {
      other.id != next.id && other.enabled && other.login == next.login && other.server != "" && other.server == next.server
    }

    /** Whether an enabled account may take its profile and its login and server. */
    method Collides(accounts: seq<Account>, next: Account) returns (profile: bool, identity: bool)
      requires Lists(table, accounts)
      ensures profile <==> ProfileHeld(lower, table, next)
      ensures identity <==> IdentityHeld(table, next)
    {
      profile, identity := false, false;
      var k := 0;
      while k < |accounts|
        invariant 0 <= k <= |accounts|
        invariant profile <==> exists i :: 0 <= i < k && ProfileTaken(accounts[i], next)
        invariant identity <==> exists i :: 0 <= i < k && IdentityTaken(accounts[i], next)
      {
        profile := profile || ProfileTaken(accounts[k], next);
        identity := identity || IdentityTaken(accounts[k], next);
        k := k + 1;
      }
      ListedExists(table, accounts, a => ProfileTaken(a, next));
      ListedExists(table, accounts, a => IdentityTaken(a, next));
    }

    /** Applies a patch exactly when the account exists, its label is free and the result may stand; the first reason
        against it is the one reported. */
    method UpdateAccount(id: string, patch: Patch, labelFree: bool) returns (r: Result<Account, Error>)
      requires Valid()
      modifies this
      ensures Valid()
      ensures r == Fail(UnknownAccount) <==> id !in old(table)
      ensures r == Fail(LabelRefused) <==> id in old(table) && !labelFree
      ensures forall next :: id in old(table) && labelFree && PatchedBy(next, old(table)[id], patch) ==>
        && (r == Fail(ProfileRequired) <==> next.enabled && next.profile == "")
        && (r == Fail(ProfileAssigned) <==> next.enabled && next.profile != "" && ProfileHeld(lower, old(table), next))
        && (r == Fail(IdentityInUse) <==> next.enabled && next.profile != "" && !ProfileHeld(lower, old(table), next)
                                          && IdentityHeld(old(table), next))
        && r in {Ok(next), Fail(ProfileRequired), Fail(ProfileAssigned), Fail(IdentityInUse)}
      ensures r.Ok? ==>
        && PatchedBy(r.value, old(table)[id], patch) && table == old(table)[id := r.value]
        && exact == ExactAfter(old(exact), Some(old(table)[id]), Some(r.value))
      ensures r.Fail? ==> table == old(table) && exact == old(exact) && byLogin == old(byLogin)
    {
      hide LoginIndexed, ExactSound, ExactAfter;
      if id !in table {
        return Fail(UnknownAccount);
      }
      if !labelFree {
        return Fail(LabelRefused);
      }
      var accounts := ListAccounts();
      var next := Patched(table[id], patch);
      PatchIsOne(table[id], patch, next);
      if next.enabled {
        if next.profile == "" {
          return Fail(ProfileRequired);
        }
        var profile, identity := Collides(accounts, next);
        if profile {
          return Fail(ProfileAssigned);
        }
        if identity {
          return Fail(IdentityInUse);
        }
      }
      WriteRow(next);
      r := Ok(next);
    }

    method DeleteAccount(id: string) returns (deleted: bool)
      requires Valid()
      modifies this
      ensures Valid() && deleted == (id in old(table))
      ensures table == old(table) - {id}
      ensures exact == if deleted then ExactAfter(old(exact), Some(old(table)[id]), None) else old(exact)
    {
      hide LoginIndexed, ExactSound, ExactAfter;
      if id !in table {
        return false;
      }
      ghost var before := table;
      var account := table[id];
      table := table - {id};
      ExactStaysSound(before, table, exact, id);
      SyncAutoBind(Some(account), None, before, id);
      deleted := true;
    }

    /** One active account of the reconciliation. */
    method ReconcileOne(account: Account, heartbeats: string -> Option<Heartbeat>) returns (outcome: Outcome)
      requires Valid() && Active(account) && RowAt(table, account.id) == Some(account)
      modifies this
      ensures Valid() && table == old(table)[account.id := Reconciled(account, heartbeats)]
      ensures old(exact).Keys <= exact.Keys && EntryWritten(exact, table[account.id], heartbeats)
      ensures Tells(outcome, account, heartbeats)
    {
      hide LoginIndexed, ExactSound, Filed;
      var heartbeat := heartbeats(account.profile);
      assert table[account.id := account] == table;
      if heartbeat.None? || heartbeat.value.login != account.login || heartbeat.value.server == "" {
        return Unresolved;
      }
      if account.server != "" && account.server != heartbeat.value.server {
        return Clash;
      }
      if account.server == "" {
        WriteRow(account.(server := heartbeat.value.server));
        assert table[account.id].server != account.server;
        return Mapped(true);
      }
      RewriteRow(account.id);
      outcome := Mapped(false);
    }

    method ReconcileAt(accounts: seq<Account>, k: nat, heartbeats: string -> Option<Heartbeat>) returns (outcome: Outcome)
      requires Valid() && k < |accounts| && DifferentIds(accounts) && Active(accounts[k])
      requires ReconciledTo(table, accounts, k, heartbeats) && WrittenTo(exact, accounts, k, heartbeats)
      modifies this
      ensures Valid() && table.Keys == old(table.Keys) && old(exact.Keys) <= exact.Keys
      ensures ReconciledTo(table, accounts, k + 1, heartbeats) && WrittenTo(exact, accounts, k + 1, heartbeats)
      ensures Tells(outcome, accounts[k], heartbeats)
    {
      hide Valid, Reconciled, Confirmed, ReconciledTo, WrittenTo, EntryWritten, DifferentIds, Tells;
      ghost var exact0 := exact;
      ReconciledStep(table, accounts, k, heartbeats);
      outcome := ReconcileOne(accounts[k], heartbeats);
      WrittenStep(exact0, exact, accounts, k, heartbeats);
    }

    /** The loop over the listed accounts. */
    method ReconcileEach(accounts: seq<Account>, heartbeats: string -> Option<Heartbeat>)
      returns (total: nat, mapped: nat, serverFilled: nat, unresolved: nat, conflicts: seq<string>)
      requires Valid() && Lists(table, accounts)
      modifies this
      ensures Valid() && table.Keys == old(table.Keys) && old(exact.Keys) <= exact.Keys
      ensures ReconciledTo(table, accounts, |accounts|, heartbeats) && WrittenTo(exact, accounts, |accounts|, heartbeats)
      ensures Tallied(accounts, |accounts|, heartbeats, total, mapped, serverFilled, unresolved, conflicts)
    {
      hide *;
      total, mapped, serverFilled, unresolved, conflicts := 0, 0, 0, 0, [];
      NothingTallied(table, exact, accounts, heartbeats);
      var k := 0;
      while k < |accounts|
        invariant 0 <= k <= |accounts| && Valid() && table.Keys == old(table.Keys) && old(exact.Keys) <= exact.Keys
        invariant DifferentIds(accounts)
        invariant ReconciledTo(table, accounts, k, heartbeats) && WrittenTo(exact, accounts, k, heartbeats)
        invariant Tallied(accounts, k, heartbeats, total, mapped, serverFilled, unresolved, conflicts)
      {
        DutyIsActive(accounts[k]);
        if Active(accounts[k]) {
          var outcome := ReconcileAt(accounts, k, heartbeats);
          TallyOn(accounts, k, heartbeats, outcome, total, mapped, serverFilled, unresolved, conflicts);
          total := total + 1;
          match outcome
          case Unresolved => unresolved := unresolved + 1;
          case Clash => conflicts := conflicts + [accounts[k].id];
          case Mapped(filled) =>
            mapped := mapped + 1;
            if filled { serverFilled := serverFilled + 1; }
        } else {
          TallyOff(accounts, k, heartbeats, total, mapped, serverFilled, unresolved, conflicts);
          PassiveStep(table, exact, accounts, k, heartbeats);
        }
        k := k + 1;
      }
    }

    /** Fills in servers from live heartbeats, writes the exact keys of the accounts they confirm, and counts what it did. */
    method Reconcile(heartbeats: string -> Option<Heartbeat>)
      returns (total: nat, mapped: nat, serverFilled: nat, unresolved: nat, conflicts: seq<string>)
      requires Valid()
      modifies this
      ensures Valid() && table.Keys == old(table).Keys
      ensures forall id :: id in table ==> FilledIn(table[id], old(table)[id], heartbeats)
      ensures forall id :: id in table && OnDuty(table[id]) && table[id].server != "" && Agrees(table[id], heartbeats) ==>
        Key(table[id].login, table[id].server) in exact
      ensures old(ExactComplete(table, exact)) ==> ExactComplete(table, exact)
      ensures total == |IdsOf(old(table), All, heartbeats)| && mapped == |IdsOf(old(table), Confirming, heartbeats)|
      ensures serverFilled == |IdsOf(old(table), Filled, heartbeats)|
      ensures forall id :: id in conflicts <==> id in IdsOf(old(table), Conflicting, heartbeats)
      ensures mapped + unresolved + |conflicts| == total
    {
      hide *;
      ghost var table0, exact0 := table, exact;
      var accounts := ListTable();
      total, mapped, serverFilled, unresolved, conflicts := ReconcileEach(accounts, heartbeats);
      ReconciledAll(table0, exact0, table, exact, accounts, heartbeats);
      TalliedAll(table0, accounts, heartbeats, total, mapped, serverFilled, unresolved, conflicts);
    }

    predicate Usable(row: LocalRow) {
      row.profile != "" && row.server != "" && SafeInteger(row.login) && row.login > 0
    }

    predicate Meant(a: Account, row: LocalRow) {
      a.id == row.accountId || lower(Trim(a.profile)) == lower(row.profile) || (a.login == row.login && a.server == row.server)
    }

    /** One reported row: the first account it can mean takes its fields, or a new account is written. `accounts` is
        the list read at the start, kept up to date in memory. */
    method SyncLocalRow(accounts0: seq<Account>, row: LocalRow) returns (accounts: seq<Account>, outcome: RowOutcome)
      requires Valid() && Lists(table, accounts0) && row.freshId !in table
      modifies this
      ensures Valid() && Lists(table, accounts)
      ensures outcome.Skipped? <==> row.profile == "" || row.server == "" || row.login <= 0 || row.login > 9_007_199_254_740_991
      ensures outcome.Skipped? || outcome.Kept? ==> table == old(table) && exact == old(exact)
      ensures !outcome.Skipped? ==> (outcome.Created? <==> forall id :: id in old(table) ==> !Names(lower, row, old(table)[id]))
      ensures outcome.Created? ==>
        var id := if OriginKeys.IsMt5Account(row.accountId) then row.accountId else row.freshId;
        && id !in old(table)
        && table == old(table)[id := Account(id, row.broker, row.environment, row.profile, row.login, row.enabled, row.profile, row.server)]
      ensures outcome.Kept? || outcome.Updated? ==> exists k :: FirstNamed(lower, row, accounts0, k)
      ensures forall k :: (outcome.Kept? || outcome.Updated?) && FirstNamed(lower, row, accounts0, k) ==>
        var a := accounts0[k];
        && a.id in old(table) && old(table)[a.id] == a
        && table == old(table)[a.id := Account(a.id, a.broker, a.environment, a.title, row.login, row.enabled, row.profile, row.server)]
        && (outcome.Kept? <==> table == old(table))
    {
      hide Filed, LoginIndexed, ExactSound, ExactAfter, Lists, Names;
      if !Usable(row) {
        return accounts0, Skipped;
      }
      hide Usable, SafeInteger;
      var k := FindMeant(accounts0, row);
      if k == |accounts0| {
        accounts := CreateRow(accounts0, row);
        return accounts, Created;
      }
      FirstNamedIsOne(lower, row, accounts0, k);
      if Carries(accounts0[k], row) {
        assert table == table[accounts0[k].id := accounts0[k]];
        return accounts0, Kept;
      }
      accounts := UpdateRow(accounts0, k, row);
      outcome := Updated;
    }

    /** The first listed account the row can mean, or the length of the list. */
    method FindMeant(accounts: seq<Account>, row: LocalRow) returns (k: nat)
      requires Lists(table, accounts)
      ensures k <= |accounts|
      ensures k < |accounts| ==> accounts[k].id in table && table[accounts[k].id] == accounts[k] && FirstNamed(lower, row, accounts, k)
      ensures k == |accounts| <==> forall id :: id in table ==> !Names(lower, row, table[id])
    {
      k := 0;
      while k < |accounts| && !Meant(accounts[k], row)
        invariant 0 <= k <= |accounts|
        invariant forall i :: 0 <= i < k ==> !Names(lower, row, accounts[i])
      {
        k := k + 1;
      }
      assert k < |accounts| ==> Names(lower, row, accounts[k]);
      hide Meant, Names;
      ListedExists(table, accounts, a => Names(lower, row, a));
    }

    method UpdateRow(accounts: seq<Account>, k: nat, row: LocalRow) returns (updated: seq<Account>)
      requires Valid() && Lists(table, accounts) && k < |accounts|
      modifies this
      ensures Valid() && Lists(table, updated)
      ensures
        var a := accounts[k];
        && a.id in old(table) && old(table)[a.id] == a
        && table == old(table)[a.id := Account(a.id, a.broker, a.environment, a.title, row.login, row.enabled, row.profile, row.server)]
    {
      hide LoginIndexed, ExactSound, ExactAfter;
      var next := accounts[k].(login := row.login, profile := row.profile, server := row.server, enabled := row.enabled);
      ListsUpdate(table, accounts, k, next);
      hide Lists;
      WriteRow(next);
      updated := accounts[k := next];
    }

    method CreateRow(accounts: seq<Account>, row: LocalRow) returns (grown: seq<Account>)
      requires Valid() && Lists(table, accounts) && row.freshId !in table
      requires forall id :: id in table ==> !Names(lower, row, table[id])
      modifies this
      ensures Valid() && Lists(table, grown)
      ensures NewId(row) !in old(table)
      ensures table == old(table)[NewId(row) := Account(NewId(row), row.broker, row.environment, row.profile, row.login, row.enabled, row.profile, row.server)]
    {
      hide LoginIndexed, ExactSound, ExactAfter;
      var account := Account(NewId(row), row.broker, row.environment, row.profile, row.login, row.enabled, row.profile, row.server);
      assert forall id :: id in table ==> table[id].id != row.accountId;
      ListsAppend(table, accounts, account);
      hide Lists;
      WriteRow(account);
      grown := accounts + [account];
    }

    /** All reported rows, one after another. */
    method SyncLocalRows(rows: seq<LocalRow>) returns (created: nat, updated: nat)
      requires Valid()
      requires forall r :: 0 <= r < |rows| ==> rows[r].freshId !in table
      requires forall q, r :: 0 <= q < r < |rows| ==> rows[r].freshId != NewId(rows[q])
      modifies this
      ensures Valid() && old(table).Keys <= table.Keys && |table.Keys| == |old(table).Keys| + created
      ensures created + updated <= |rows|
      ensures created + updated == 0 ==> table == old(table) && exact == old(exact)
    {
      hide Valid, Lists;
      var accounts := ListTable();
      created, updated := 0, 0;
      var k := 0;
      while k < |rows|
        invariant 0 <= k <= |rows| && Valid() && Lists(table, accounts)
        invariant old(table).Keys <= table.Keys && |table.Keys| == |old(table).Keys| + created
        invariant forall r :: k <= r < |rows| ==> rows[r].freshId !in table
        invariant created + updated <= k
        invariant created + updated == 0 ==> table == old(table) && exact == old(exact)
      {
        var outcome;
        accounts, outcome := SyncLocalRow(accounts, rows[k]);
        if outcome.Created? { created := created + 1; }
        if outcome.Updated? { updated := updated + 1; }
        k := k + 1;
      }
    }

    method ListTable() returns (accounts: seq<Account>)
      requires Valid()
      ensures Filed(table) && Lists(table, accounts)
    {
      accounts := ListAccounts();
    }

    /** Writes the exact key of an unchanged account again. */
    method RewriteRow(id: string)
      requires Valid() && id in table
      modifies this`exact, this`byLogin
      ensures Valid() && exact == ExactAfter(old(exact), None, Some(table[id]))
    {
      RewriteStaysSound(table, exact, id);
      SyncAutoBind(None, Some(table[id]), table, id);
    }
  }

  predicate Carries(a: Account, row: LocalRow) {
    a.login == row.login && a.profile == row.profile && a.server == row.server && a.enabled == row.enabled
  }

  function NewId(row: LocalRow): string {
    if OriginKeys.IsMt5Account(row.accountId) then row.accountId else row.freshId
  }

  lemma ListsUpdate(table: Table, accounts: seq<Account>, k: nat, next: Account)
    requires Filed(table) && Lists(table, accounts) && k < |accounts| && next.id == accounts[k].id
    ensures next.id in table && Lists(table[next.id := next], accounts[k := next])
  {
    var after, listed := table[next.id := next], accounts[k := next];
    assert listed[k] == next;
    forall id | id in after ensures after[id] in listed {
      if id != next.id {
        assert table[id] in accounts;
        var i :| 0 <= i < |accounts| && accounts[i] == table[id];
        assert listed[i] == accounts[i];
      }
    }
  }

  lemma ListsAppend(table: Table, accounts: seq<Account>, account: Account)
    requires Lists(table, accounts) && account.id !in table
    ensures Lists(table[account.id := account], accounts + [account])
  {
  }

  /** A live heartbeat that names this login and server. */
  predicate Confirmed(a: Account, heartbeats: string -> Option<Heartbeat>) {
    var h := heartbeats(a.profile);
    h.Some? && h.value.login == a.login && h.value.server != "" && h.value.server == a.server
  }

  /** An active account without a server takes the one its heartbeat names. */
  function Reconciled(a: Account, heartbeats: string -> Option<Heartbeat>): Account {
    var h := heartbeats(a.profile);
    if Active(a) && a.server == "" && h.Some? && h.value.login == a.login then a.(server := h.value.server) else a
  }

  /** Whether a confirmed account can be found by its login and server. */
  ghost predicate EntryWritten(exact: ExactIndex, a: Account, heartbeats: string -> Option<Heartbeat>) {
    Active(a) && Confirmed(a, heartbeats) ==> KeyOf(a) in exact
  }

  ghost predicate WrittenTo(exact: ExactIndex, accounts: seq<Account>, k: nat, heartbeats: string -> Option<Heartbeat>) {
    k <= |accounts| && forall i :: 0 <= i < k ==> EntryWritten(exact, Reconciled(accounts[i], heartbeats), heartbeats)
  }

  lemma WrittenStep(exact: ExactIndex, after: ExactIndex, accounts: seq<Account>, k: nat, heartbeats: string -> Option<Heartbeat>)
    requires WrittenTo(exact, accounts, k, heartbeats) && exact.Keys <= after.Keys && k < |accounts|
    requires EntryWritten(after, Reconciled(accounts[k], heartbeats), heartbeats)
    ensures WrittenTo(after, accounts, k + 1, heartbeats)
  {
    hide Reconciled, Confirmed, Active;
    forall i | 0 <= i < k ensures EntryWritten(after, Reconciled(accounts[i], heartbeats), heartbeats) {
      assert EntryWritten(exact, Reconciled(accounts[i], heartbeats), heartbeats);
    }
  }

  lemma Passive(a: Account, exact: ExactIndex, heartbeats: string -> Option<Heartbeat>)
    requires !Active(a)
    ensures Reconciled(a, heartbeats) == a && EntryWritten(exact, Reconciled(a, heartbeats), heartbeats)
  {
  }

  /** The first `k` listed accounts have been reconciled, the others are as listed. */
  ghost predicate ReconciledTo(table: Table, accounts: seq<Account>, k: nat, heartbeats: string -> Option<Heartbeat>) {
    forall i :: 0 <= i < |accounts| ==>
      RowAt(table, accounts[i].id) == Some(if i < k then Reconciled(accounts[i], heartbeats) else accounts[i])
  }

  lemma ReconciledStep(table: Table, accounts: seq<Account>, k: nat, heartbeats: string -> Option<Heartbeat>)
    requires ReconciledTo(table, accounts, k, heartbeats) && k < |accounts|
    requires DifferentIds(accounts)
    ensures RowAt(table, accounts[k].id) == Some(accounts[k])
    ensures ReconciledTo(table[accounts[k].id := Reconciled(accounts[k], heartbeats)], accounts, k + 1, heartbeats)
    ensures !Active(accounts[k]) ==> table[accounts[k].id := Reconciled(accounts[k], heartbeats)] == table
  {
    hide Active;
    var after := table[accounts[k].id := Reconciled(accounts[k], heartbeats)];
    forall i | 0 <= i < |accounts|
      ensures RowAt(after, accounts[i].id) == Some(if i < k + 1 then Reconciled(accounts[i], heartbeats) else accounts[i])
    {
      assert i != k ==> accounts[i].id != accounts[k].id;
    }
  }

  lemma PassiveStep(table: Table, exact: ExactIndex, accounts: seq<Account>, k: nat, heartbeats: string -> Option<Heartbeat>)
    requires k < |accounts| && DifferentIds(accounts) && !Active(accounts[k])
    requires ReconciledTo(table, accounts, k, heartbeats) && WrittenTo(exact, accounts, k, heartbeats)
    ensures ReconciledTo(table, accounts, k + 1, heartbeats) && WrittenTo(exact, accounts, k + 1, heartbeats)
  {
    hide Reconciled, EntryWritten, ReconciledTo, WrittenTo, DifferentIds;
    Passive(accounts[k], exact, heartbeats);
    ReconciledStep(table, accounts, k, heartbeats);
    WrittenStep(exact, exact, accounts, k, heartbeats);
  }

  lemma ReconciledAll(table0: Table, exact0: ExactIndex, table: Table, exact: ExactIndex, accounts: seq<Account>,
                      heartbeats: string -> Option<Heartbeat>)
    requires Lists(table0, accounts) && table.Keys == table0.Keys && exact0.Keys <= exact.Keys && Filed(table0)
    requires ReconciledTo(table, accounts, |accounts|, heartbeats) && WrittenTo(exact, accounts, |accounts|, heartbeats)
    ensures forall id :: id in table ==> FilledIn(table[id], table0[id], heartbeats)
    ensures forall id :: id in table && OnDuty(table[id]) && table[id].server != "" && Agrees(table[id], heartbeats) ==>
      Key(table[id].login, table[id].server) in exact
    ensures ExactComplete(table0, exact0) ==> ExactComplete(table, exact)
  {
    forall id | id in table
      ensures table[id] == Reconciled(table0[id], heartbeats)
      ensures OnDuty(table[id]) && table[id].server != "" && Agrees(table[id], heartbeats) ==>
        Key(table[id].login, table[id].server) in exact
    {
      assert table0[id] in accounts;
      var i :| 0 <= i < |accounts| && accounts[i] == table0[id];
      assert RowAt(table, accounts[i].id) == Some(Reconciled(accounts[i], heartbeats));
      assert EntryWritten(exact, Reconciled(accounts[i], heartbeats), heartbeats);
    }
  }

  lemma ListedExists(table: Table, accounts: seq<Account>, p: Account -> bool)
    requires Lists(table, accounts)
    ensures (exists i :: 0 <= i < |accounts| && p(accounts[i])) <==> exists id :: id in table && p(table[id])
  {
    if id :| id in table && p(table[id]) {
      assert table[id] in accounts;
    }
  }

  lemma DistinctPair(accounts: seq<Account>)
    requires |accounts| > 1 && forall i, j :: 0 <= i < j < |accounts| ==> accounts[i].id != accounts[j].id
    ensures accounts[0].id != accounts[1].id
  {
  }

  lemma SoleIsListedAlone(table: Table, login: int, enabled: seq<Account>, id: string)
    requires forall i :: 0 <= i < |enabled| ==> ActiveAt(table, enabled[i].id, login) && table[enabled[i].id] == enabled[i]
    requires forall id :: ActiveAt(table, id, login) ==> table[id] in enabled
    requires forall i, j :: 0 <= i < j < |enabled| ==> enabled[i].id != enabled[j].id
    requires Sole(table, login, id)
    ensures |enabled| == 1 && enabled[0].server == ""
  {
    assert table[id] in enabled;
    assert forall i :: 0 <= i < |enabled| ==> enabled[i].id == id;
    if |enabled| > 1 { DistinctPair(enabled); }
  }

  lemma SoleOfListed(table: Table, login: int, enabled: seq<Account>)
    requires forall i :: 0 <= i < |enabled| ==> ActiveAt(table, enabled[i].id, login) && table[enabled[i].id] == enabled[i]
    requires forall id :: ActiveAt(table, id, login) ==> table[id] in enabled
    requires DifferentIds(enabled) && Filed(table)
    ensures |enabled| == 1 && enabled[0].server == "" ==> Sole(table, login, enabled[0].id)
    ensures !(|enabled| == 1 && enabled[0].server == "") ==> forall id :: !Sole(table, login, id)
  {
    if |enabled| == 1 && enabled[0].server == "" {
      forall other | ActiveAt(table, other, login) ensures other == enabled[0].id {
        assert table[other] in enabled;
      }
    } else {
      forall id ensures !Sole(table, login, id) {
        if Sole(table, login, id) { SoleIsListedAlone(table, login, enabled, id); }
      }
    }
  }
}
