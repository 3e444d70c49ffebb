/**
 * The session store: two slots, `team` and `admin`, mirrored into the
 * tab-scoped storage under two fixed keys. Logging in as one identity clears
 * the other; logging out clears both; on start-up each slot is restored from
 * its key when that key is present.
 */
module Session {
  import opened Wrappers

  /** The team snapshot the session holds: the row's public columns, no password. */
  datatype TeamInfo = TeamInfo(id: string, teamName: string, username: string, currentStage: int, completed: bool)

  /** The admin snapshot the session holds: no password. */
  datatype AdminInfo = AdminInfo(id: string, adminName: string, username: string)

  /** What the storage holds under a key: the snapshot itself (serialisation is not modelled). */
  datatype Snapshot = TeamSnapshot(team: TeamInfo) | AdminSnapshot(admin: AdminInfo)

  type Storage = map<string, Snapshot>

  const TeamKey := "datahunt_team"
  const AdminKey := "datahunt_admin"

  /** The whole observable state of the store: both slots and the storage. */
  datatype SessionState = SessionState(team: Option<TeamInfo>, admin: Option<AdminInfo>, storage: Storage)

  predicate AtMostOne(s: SessionState) {
    !(s.team.Some? && s.admin.Some?)
  }

  /** The storage holds each slot's snapshot under its key exactly when the slot is set. */
  predicate Mirrors(s: SessionState) {
    && (TeamKey in s.storage <==> s.team.Some?)
    && (s.team.Some? ==> s.storage[TeamKey] == TeamSnapshot(s.team.value))
    && (AdminKey in s.storage <==> s.admin.Some?)
    && (s.admin.Some? ==> s.storage[AdminKey] == AdminSnapshot(s.admin.value))
  }

  predicate Valid(s: SessionState) {
    AtMostOne(s) && Mirrors(s)
  }

  /** `isTeamLoggedIn: !!team`. */
  predicate TeamLoggedIn(s: SessionState) {
    s.team.Some?
  }

  /** `isAdminLoggedIn: !!admin`. */
  predicate AdminLoggedIn(s: SessionState) {
    s.admin.Some?
  }

  /** `loginTeam(t)`: the team slot and key take `t`, the admin slot and key are cleared, other keys stay. */
  function AfterLoginTeam(s: SessionState, t: TeamInfo): (r: SessionState)
    ensures Valid(r)
    ensures r.team == Some(t) && r.admin == None
    ensures TeamLoggedIn(r) && !AdminLoggedIn(r)
    ensures forall k :: k != TeamKey && k != AdminKey ==>
              (k in r.storage <==> k in s.storage) && (k in s.storage ==> r.storage[k] == s.storage[k])
  {
    SessionState(Some(t), None, s.storage[TeamKey := TeamSnapshot(t)] - {AdminKey})
  }

  /** `loginAdmin(a)`: the admin slot and key take `a`, the team slot and key are cleared, other keys stay. */
  function AfterLoginAdmin(s: SessionState, a: AdminInfo): (r: SessionState)
    ensures Valid(r)
    ensures r.admin == Some(a) && r.team == None
    ensures AdminLoggedIn(r) && !TeamLoggedIn(r)
    ensures forall k :: k != TeamKey && k != AdminKey ==>
              (k in r.storage <==> k in s.storage) && (k in s.storage ==> r.storage[k] == s.storage[k])
  {
    SessionState(None, Some(a), s.storage[AdminKey := AdminSnapshot(a)] - {TeamKey})
  }

  /** `logout()`: both slots and both keys cleared, other keys stay. */
  function AfterLogout(s: SessionState): (r: SessionState)
    ensures Valid(r)
    ensures r.team == None && r.admin == None
    ensures TeamKey !in r.storage && AdminKey !in r.storage
    ensures forall k :: k != TeamKey && k != AdminKey ==>
              (k in r.storage <==> k in s.storage) && (k in s.storage ==> r.storage[k] == s.storage[k])
  {
    SessionState(None, None, s.storage - {TeamKey, AdminKey})
  }

  /** The team slot as the start-up effect reads it back: set when the key holds a team snapshot, and then that snapshot. */
  function StoredTeam(storage: Storage): (r: Option<TeamInfo>)
    ensures r.Some? <==> TeamKey in storage && storage[TeamKey].TeamSnapshot?
    ensures r.Some? ==> storage[TeamKey] == TeamSnapshot(r.value)
  {
    if TeamKey in storage && storage[TeamKey].TeamSnapshot? then Some(storage[TeamKey].team) else None
  }

  /** The admin slot as the start-up effect reads it back. */
  function StoredAdmin(storage: Storage): (r: Option<AdminInfo>)
    ensures r.Some? <==> AdminKey in storage && storage[AdminKey].AdminSnapshot?
    ensures r.Some? ==> storage[AdminKey] == AdminSnapshot(r.value)
  {
    if AdminKey in storage && storage[AdminKey].AdminSnapshot? then Some(storage[AdminKey].admin) else None
  }

  /** The start-up effect: both slots start empty, then each is filled from its key when present. */
  function Restore(storage: Storage): (r: SessionState)
    ensures r.storage == storage
    ensures (TeamKey in storage && storage[TeamKey].TeamSnapshot?) <==> TeamLoggedIn(r)
    ensures (AdminKey in storage && storage[AdminKey].AdminSnapshot?) <==> AdminLoggedIn(r)
  {
    SessionState(StoredTeam(storage), StoredAdmin(storage), storage)
  }

  /** A state whose storage mirrors its slots is reproduced exactly by restoring that storage. */
  lemma RestoreMirrored(s: SessionState)
    requires Mirrors(s)
    ensures Restore(s.storage) == s
  {
  }

  /** The operations the session store offers. */
  datatype Op = DoLoginTeam(t: TeamInfo) | DoLoginAdmin(a: AdminInfo) | DoLogout

  function Apply(s: SessionState, op: Op): SessionState {
    match op
    case DoLoginTeam(t) => AfterLoginTeam(s, t)
    case DoLoginAdmin(a) => AfterLoginAdmin(s, a)
    case DoLogout => AfterLogout(s)
  }

  function Run(s: SessionState, ops: seq<Op>): SessionState
    decreases |ops|
  {
    if ops == [] then s else Run(Apply(s, ops[0]), ops[1..])
  }

  /**
   * After any non-empty run of operations, from any state at all, at most one
   * identity is active, the storage mirrors memory, and a reload restores
   * the same slots.
   */
  lemma {:induction false} RunEstablishesValid(s: SessionState, ops: seq<Op>)
    requires ops != [] || Valid(s)
    ensures Valid(Run(s, ops))
    ensures Restore(Run(s, ops).storage) == Run(s, ops)
    decreases |ops|
  {
    if ops != [] {
      RunEstablishesValid(Apply(s, ops[0]), ops[1..]);
    }
  }

  /** Restoring a storage written by hand can switch both identities on: start-up does not enforce the invariant. */
  lemma ForgedStorageActivatesBoth(t: TeamInfo, a: AdminInfo)
    ensures var r := Restore(map[TeamKey := TeamSnapshot(t), AdminKey := AdminSnapshot(a)]);
            TeamLoggedIn(r) && AdminLoggedIn(r) && !AtMostOne(r)
  {
  }

  /**
   * The session store as a stateful object: two slots overwritten by the
   * setters and a storage map whose keys are set and removed in place.
   */
  class AuthStore {
    var team: Option<TeamInfo>
    var admin: Option<AdminInfo>
    var storage: Storage

    function State(): SessionState
      reads this
    {
      SessionState(team, admin, storage)
    }

    /** Mount of the provider: both slots empty, then the start-up restore from `stored`. */
    constructor (stored: Storage)
      ensures State() == Restore(stored)
    {
      team := None;
      admin := None;
      storage := stored;
      if TeamKey in stored && stored[TeamKey].TeamSnapshot? {
        team := Some(stored[TeamKey].team);
      }
      if AdminKey in stored && stored[AdminKey].AdminSnapshot? {
        admin := Some(stored[AdminKey].admin);
      }
    }

    function IsTeamLoggedIn(): (b: bool)
      reads this
      ensures b <==> TeamLoggedIn(State())
    {
      team.Some?
    }

    function IsAdminLoggedIn(): (b: bool)
      reads this
      ensures b <==> AdminLoggedIn(State())
    {
      admin.Some?
    }

    method LoginTeam(t: TeamInfo)
      modifies this
      ensures State() == AfterLoginTeam(old(State()), t)
      ensures Valid(State()) && team == Some(t) && admin == None
    {
      team := Some(t);
      admin := None;
      storage := storage[TeamKey := TeamSnapshot(t)];
      storage := storage - {AdminKey};
    }

    method LoginAdmin(a: AdminInfo)
      modifies this
      ensures State() == AfterLoginAdmin(old(State()), a)
      ensures Valid(State()) && admin == Some(a) && team == None
    {
      admin := Some(a);
      team := None;
      storage := storage[AdminKey := AdminSnapshot(a)];
      storage := storage - {TeamKey};
    }

    method Logout()
      modifies this
      ensures State() == AfterLogout(old(State()))
      ensures Valid(State()) && team == None && admin == None
    {
      team := None;
      admin := None;
      storage := storage - {TeamKey};
      storage := storage - {AdminKey};
    }
  }
}
