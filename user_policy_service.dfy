/**
 * `UserPolicyServiceImpl`: a user's policy row, read, inserted, deleted, and
 * "updated" as an upsert: when the user has no row yet, the update inserts it.
 */
module UserPolicyService {
  import opened Wrappers
  import opened Persistence

  /** The policy table after storing `policy` for its user, row present or not. */
  function Upsert(policies: map<string, UserPolicy>, policy: UserPolicy): (m: map<string, UserPolicy>)
    ensures policy.userId in m && m[policy.userId] == policy
    ensures m.Keys == policies.Keys + {policy.userId}
    ensures forall u :: u in policies && u != policy.userId ==> u in m && m[u] == policies[u]
  {
    policies[policy.userId := policy]
  }

  /** Storing the same policy twice is storing it once. */
  lemma UpsertIdempotent(policies: map<string, UserPolicy>, policy: UserPolicy)
    ensures Upsert(Upsert(policies, policy), policy) == Upsert(policies, policy)
  {
  }

  /** Of two upserts for one user, the later wins. */
  lemma UpsertLastWins(policies: map<string, UserPolicy>, first: UserPolicy, second: UserPolicy)
    requires first.userId == second.userId
    ensures Upsert(Upsert(policies, first), second) == Upsert(policies, second)
  {
  }

  /** Deleting the user's row after an upsert for a new user gives back the table it started from. */
  lemma UpsertThenDeleteRestores(policies: map<string, UserPolicy>, policy: UserPolicy)
    requires policy.userId !in policies
    ensures Upsert(policies, policy) - {policy.userId} == policies
  {
  }

  /** `getUserPolicy`: the user's row, or null. */
  method GetUserPolicy(db: Database, userId: string) returns (p: Option<UserPolicy>)
    modifies db
    ensures p.Some? <==> userId in db.tables.policies
    ensures p.Some? ==> p.value == db.tables.policies[userId]
    ensures db.tables == old(db.tables) && db.calls == old(db.calls) + [SelectPolicy(userId)]
  {
    p := db.GetUserPolicy(userId);
  }

  /** `insertUserPolicy`: fails on the table's key when the user already has a row. */
  method InsertUserPolicy(db: Database, policy: UserPolicy) returns (r: Result<int, Fault>)
    modifies db
    ensures policy.userId in old(db.tables.policies) ==> r == Err(DuplicateKey) && db.tables == old(db.tables)
    ensures policy.userId !in old(db.tables.policies) ==>
      r == Ok(1) && db.tables == old(db.tables).(policies := Upsert(old(db.tables.policies), policy))
    ensures db.calls == old(db.calls) + [InsertPolicy(policy)]
  {
    r := db.InsertUserPolicy(policy);
  }

  /**
   * `updateUserPolicy`: reads the user's row, then inserts the policy when
   * there is none and updates the row when there is one. Because the insert
   * happens only for an absent key, it cannot fail: the result is one row,
   * and the table holds the policy afterwards either way.
   */
  method UpdateUserPolicy(db: Database, policy: UserPolicy) returns (r: Result<int, Fault>)
    modifies db
    ensures r == Ok(1)
    ensures db.tables == old(db.tables).(policies := Upsert(old(db.tables.policies), policy))
    ensures db.calls == old(db.calls) + [SelectPolicy(policy.userId)] +
      (if policy.userId in old(db.tables.policies) then [UpdatePolicy(policy)] else [InsertPolicy(policy)])
  {
    var dbUserPolicy := db.GetUserPolicy(policy.userId);
    if dbUserPolicy.None? {
      r := db.InsertUserPolicy(policy);
    } else {
      var rows := db.UpdateUserPolicy(policy);
      r := Ok(rows);
    }
  }

  /** `deleteUserPolicy`: removes the user's row, reporting 1, or 0 when there was none. */
  method DeleteUserPolicy(db: Database, userId: string) returns (rows: int)
    modifies db
    ensures rows == (if userId in old(db.tables.policies) then 1 else 0)
    ensures db.tables == old(db.tables).(policies := old(db.tables.policies) - {userId})
    ensures db.calls == old(db.calls) + [DeletePolicy(userId)]
  {
    rows := db.DeleteUserPolicy(userId);
  }
}
