/** Refresh-token rotation with reuse detection (section 4.14.2 of RFC 9700), as steps on the token ledger. */
module RefreshTokens {
  import opened Wrappers
  import opened Sums

  /** Times are microseconds; a second presentation within three seconds counts as a concurrent refresh. */
  const REUSE_GRACE_PERIOD := 3_000_000

  datatype Row = Row(
    family: string, user: string, expiresAt: int,
    usedAt: Option<int>, replacedBy: Option<string>, revokedAt: Option<int>)

  type Ledger = map<string, Row>

  datatype Outcome = Token(id: string) | Unknown | Revoked | ReuseDetected | Expired

  // ----- The operations, on ledger values -----

  function Issue(rows: Ledger, id: string, family: string, user: string, expiresAt: int): Ledger {
    rows[id := Row(family, user, expiresAt, None, None, None)]
  }

  function RevokeRow(r: Row, family: string, now: int): Row {
    if r.family == family && r.revokedAt.None? then r.(revokedAt := Some(now)) else r
  }

  function Revoke(rows: Ledger, family: string, now: int): Ledger {
    map id | id in rows :: RevokeRow(rows[id], family, now)
  }

  /** The successor already issued for a token used at most a grace period ago, while it is unused and live. */
  function SuccessorWithinGrace(rows: Ledger, row: Row, now: int): Option<string> {
    if row.replacedBy.None? || row.usedAt.None? || now - row.usedAt.value > REUSE_GRACE_PERIOD then None
    else
      var next := row.replacedBy.value;
      if next !in rows || rows[next].revokedAt.Some? || rows[next].usedAt.Some? then None else Some(next)
  }

  function Replace(rows: Ledger, id: string, minted: string, now: int, lifetime: int): Ledger
    requires id in rows
  {
    Issue(rows, minted, rows[id].family, rows[id].user, now + lifetime)
      [id := rows[id].(usedAt := Some(now), replacedBy := Some(minted))]
  }

  function Rotation(rows: Ledger, id: string, minted: string, now: int, lifetime: int): (Ledger, Outcome) {
    if id !in rows then (rows, Unknown)
    else
      var row := rows[id];
      if row.revokedAt.Some? then (rows, Revoked)
      else if row.usedAt.Some? then
        var next := SuccessorWithinGrace(rows, row, now);
        if next.Some? then (rows, Token(next.value)) else (Revoke(rows, row.family, now), ReuseDetected)
      else if row.expiresAt <= now then (rows, Expired)
      else (Replace(rows, id, minted, now, lifetime), Token(minted))
  }

  /** The token table, updated row by row. */
  class TokenStore {
    var rows: Ledger
    const lifetime: int

    constructor (lifetime: int)
      ensures rows == map[] && this.lifetime == lifetime
    {
      rows := map[];
      this.lifetime := lifetime;
    }

    /** Start a family at login: one more row, no other touched, and with new identifiers the row is a live family of
        one token beside the families there were. */
    method IssueNewFamily(id: string, family: string, user: string, now: int)
      modifies this`rows
      ensures rows == Issue(old(rows), id, family, user, now + lifetime)
      ensures rows.Keys == old(rows.Keys) + {id}
      ensures forall x :: x in old(rows) && x != id ==> rows[x] == old(rows)[x]
      ensures rows[id].family == family && rows[id].user == user && rows[id].expiresAt == now + lifetime
      ensures rows[id].usedAt.None? && rows[id].replacedBy.None? && rows[id].revokedAt.None?
      ensures IsNewFamily(old(rows), id, family) ==> IsChain(rows, family, [id]) && Live(rows, [id])
      ensures IsNewFamily(old(rows), id, family) && Inv(old(rows)) ==> Inv(rows)
    {
      ghost var before := rows;
      rows := rows[id := Row(family, user, now + lifetime, None, None, None)];
      if IsNewFamily(before, id, family) {
        IssueStartsChain(before, id, family, user, now + lifetime);
        if Inv(before) {
          IssueKeepsInv(before, id, family, user, now + lifetime);
        }
      }
    }

    /** Revoke every live token of a family: its unrevoked rows get the time, every other row is left as it was, and
        no token of the family is live. */
    method RevokeFamily(family: string, now: int)
      modifies this`rows
      ensures rows == Revoke(old(rows), family, now)
      ensures rows.Keys == old(rows.Keys)
      ensures forall x :: x in rows && (old(rows)[x].family != family || old(rows)[x].revokedAt.Some?) ==>
                rows[x] == old(rows)[x]
      ensures forall x :: x in rows && old(rows)[x].family == family && old(rows)[x].revokedAt.None? ==>
                rows[x] == old(rows)[x].(revokedAt := Some(now))
      ensures Dead(rows, family)
      ensures Inv(old(rows)) ==> Inv(rows)
    {
      ghost var before := rows;
      rows := map id | id in rows :: RevokeRow(rows[id], family, now);
      if Inv(before) {
        RevokeKeepsInv(before, family, now);
      }
    }

    /** Use the presented token and hand out its successor, or say why not. A live, unused, unexpired token gets a new
        row of its family and its user that lives for the whole lifetime; the presented row records the time and the
        successor, and no other row changes. */
    method Rotate(id: string, minted: string, now: int) returns (outcome: Outcome)
      modifies this`rows
      ensures (rows, outcome) == Rotation(old(rows), id, minted, now, lifetime)
      ensures id !in old(rows) ==> outcome == Unknown && rows == old(rows)
      ensures id in old(rows) && old(rows)[id].revokedAt.Some? ==> outcome == Revoked && rows == old(rows)
      ensures
        id in old(rows) && old(rows)[id].revokedAt.None? && old(rows)[id].usedAt.None? &&
        old(rows)[id].expiresAt <= now ==>
          outcome == Expired && rows == old(rows)
      ensures
        id in old(rows) && id != minted && old(rows)[id].revokedAt.None? && old(rows)[id].usedAt.None? &&
        now < old(rows)[id].expiresAt ==>
            && outcome == Token(minted)
            && rows.Keys == old(rows.Keys) + {minted}
            && rows[minted].family == old(rows)[id].family && rows[minted].user == old(rows)[id].user
            && rows[minted].expiresAt == now + lifetime
            && rows[minted].usedAt.None? && rows[minted].replacedBy.None? && rows[minted].revokedAt.None?
            && rows[id] == old(rows)[id].(usedAt := Some(now), replacedBy := Some(minted))
            && forall x :: x in old(rows) && x != id && x != minted ==> rows[x] == old(rows)[x]
    {
      if id !in rows {
        return Unknown;
      }
      var row := rows[id];
      if row.revokedAt.Some? {
        return Revoked;
      }
      if row.usedAt.Some? {
        var next := SuccessorWithinGrace(rows, row, now);
        if next.Some? {
          return Token(next.value);
        }
        RevokeFamily(row.family, now);
        return ReuseDetected;
      }
      if row.expiresAt <= now {
        return Expired;
      }
      rows := rows[minted := Row(row.family, row.user, now + lifetime, None, None, None)];
      rows := rows[id := row.(usedAt := Some(now), replacedBy := Some(minted))];
      return Token(minted);
    }
  }

  // ----- The invariant: a family is one chain with one unused token -----

  ghost predicate InFamily(rows: Ledger, family: string, id: string) {
    id in rows && rows[id].family == family
  }

  ghost predicate Live(rows: Ledger, chain: seq<string>) {
    forall i :: 0 <= i < |chain| ==> chain[i] in rows && rows[chain[i]].revokedAt.None?
  }

  ghost predicate Dead(rows: Ledger, family: string) {
    forall id :: InFamily(rows, family, id) ==> rows[id].revokedAt.Some?
  }

  /** `chain` is the family in order of issue: each token but the last is used and replaced by the next one, the
      last is unused, and the tokens are all live or all revoked. */
  ghost predicate IsChain(rows: Ledger, family: string, chain: seq<string>) {
    && chain != [] && Distinct(chain)
    && (forall i :: 0 <= i < |chain| ==> InFamily(rows, family, chain[i]))
    && (forall id :: InFamily(rows, family, id) ==> id in chain)
    && (forall i :: 0 <= i < |chain| - 1 ==>
          rows[chain[i]].usedAt.Some? && rows[chain[i]].replacedBy == Some(chain[i + 1]))
    && rows[chain[|chain| - 1]].usedAt.None? && rows[chain[|chain| - 1]].replacedBy.None?
    && (Live(rows, chain) || Dead(rows, family))
  }

  ghost predicate HasChain(rows: Ledger, family: string) {
    exists chain :: IsChain(rows, family, chain)
  }

  ghost predicate Inv(rows: Ledger) {
    forall id {:trigger HasChain(rows, rows[id].family)} :: id in rows ==> HasChain(rows, rows[id].family)
  }

  lemma ChainOf(rows: Ledger, id: string) returns (chain: seq<string>)
    requires Inv(rows) && id in rows
    ensures IsChain(rows, rows[id].family, chain)
  {
    assert HasChain(rows, rows[id].family);
    chain :| IsChain(rows, rows[id].family, chain);
  }

  /** Neither the token nor the family has been seen before. */
  ghost predicate IsNewFamily(rows: Ledger, token: string, family: string) {
    token !in rows && forall id :: id in rows ==> rows[id].family != family
  }

  lemma IssueStartsChain(rows: Ledger, token: string, family: string, user: string, expiresAt: int)
    requires IsNewFamily(rows, token, family)
    ensures IsChain(Issue(rows, token, family, user, expiresAt), family, [token])
    ensures Live(Issue(rows, token, family, user, expiresAt), [token])
  {
    assert InFamily(Issue(rows, token, family, user, expiresAt), family, token);
  }

  /** A family whose rows did not change keeps its chain. */
  lemma ChainFrame(rows: Ledger, rows': Ledger, family: string, chain: seq<string>)
    requires IsChain(rows, family, chain)
    requires forall id :: InFamily(rows', family, id) <==> InFamily(rows, family, id)
    requires forall id :: InFamily(rows, family, id) ==> id in rows' && rows'[id] == rows[id]
    ensures IsChain(rows', family, chain)
  {
    assert forall i :: 0 <= i < |chain| ==> InFamily(rows', family, chain[i]);
    if Live(rows, chain) {
      assert Live(rows', chain);
    }
  }

  lemma RevokeChain(rows: Ledger, family: string, chain: seq<string>, now: int)
    requires IsChain(rows, family, chain)
    ensures IsChain(Revoke(rows, family, now), family, chain) && Dead(Revoke(rows, family, now), family)
  {
    var rows' := Revoke(rows, family, now);
    assert forall id :: InFamily(rows', family, id) <==> InFamily(rows, family, id);
    assert forall i :: 0 <= i < |chain| ==> InFamily(rows', family, chain[i]);
  }

  /** Rotating the tail appends one token to the chain. */
  lemma ReplaceChain(rows: Ledger, id: string, minted: string, now: int, lifetime: int, chain: seq<string>)
    requires id in rows && minted !in rows && rows[id].revokedAt.None? && rows[id].usedAt.None?
    requires IsChain(rows, rows[id].family, chain)
    ensures id == chain[|chain| - 1]
    ensures IsChain(Replace(rows, id, minted, now, lifetime), rows[id].family, chain + [minted])
  {
    var family := rows[id].family;
    var rows' := Replace(rows, id, minted, now, lifetime);
    var chain' := chain + [minted];
    assert InFamily(rows, family, id);
    var k :| 0 <= k < |chain| && chain[k] == id;
    assert forall x :: InFamily(rows', family, x) <==> InFamily(rows, family, x) || x == minted;
    forall i | 0 <= i < |chain'|
      ensures InFamily(rows', family, chain'[i])
    {
      assert i < |chain| ==> InFamily(rows, family, chain[i]);
    }
    assert minted !in chain;
    assert Live(rows, chain);
    assert Live(rows', chain');
  }

  // ----- Steps and runs -----

  datatype Step =
    | Login(token: string, family: string, user: string, now: int)
    | Logout(family: string, now: int)
    | Present(id: string, minted: string, now: int)

  /** New identifiers are new: neither a token nor a family has been seen before. */
  ghost predicate Fresh(rows: Ledger, s: Step) {
    match s
    case Login(token, family, _, _) => IsNewFamily(rows, token, family)
    case Present(_, minted, _) => minted !in rows
    case Logout(_, _) => true
  }

  function Apply(rows: Ledger, s: Step, lifetime: int): Ledger {
    match s
    case Login(token, family, user, now) => Issue(rows, token, family, user, now + lifetime)
    case Logout(family, now) => Revoke(rows, family, now)
    case Present(id, minted, now) => Rotation(rows, id, minted, now, lifetime).0
  }

  /** A step on new identifiers, and the ledger it leaves. */
  ghost predicate IsStep(rows: Ledger, s: Step, rows': Ledger, lifetime: int) {
    Fresh(rows, s) && rows' == Apply(rows, s, lifetime)
  }

  datatype Run = Run(steps: seq<Step>, states: seq<Ledger>)

  /** A run starts from the empty ledger and takes one step after the other. */
  ghost predicate ValidRun(run: Run, lifetime: int) {
    && |run.states| == |run.steps| + 1
    && run.states[0] == map[]
    && forall k {:trigger run.steps[k]} :: 0 <= k < |run.steps| ==>
         IsStep(run.states[k], run.steps[k], run.states[k + 1], lifetime)
  }

  lemma RevokeKeepsInv(rows: Ledger, family: string, now: int)
    requires Inv(rows)
    ensures Inv(Revoke(rows, family, now))
  {
    var rows' := Revoke(rows, family, now);
    forall id | id in rows'
      ensures HasChain(rows', rows'[id].family)
    {
      var f := rows[id].family;
      var chain := ChainOf(rows, id);
      if f == family {
        RevokeChain(rows, family, chain, now);
      } else {
        ChainFrame(rows, rows', f, chain);
      }
    }
  }

  lemma IssueKeepsInv(rows: Ledger, token: string, family: string, user: string, expiresAt: int)
    requires Inv(rows) && IsNewFamily(rows, token, family)
    ensures Inv(Issue(rows, token, family, user, expiresAt))
  {
    var rows' := Issue(rows, token, family, user, expiresAt);
    forall id | id in rows'
      ensures HasChain(rows', rows'[id].family)
    {
      if id == token {
        IssueStartsChain(rows, token, family, user, expiresAt);
      } else {
        var f := rows[id].family;
        var chain := ChainOf(rows, id);
        ChainFrame(rows, rows', f, chain);
      }
    }
  }

  lemma ReplaceKeepsInv(rows: Ledger, token: string, minted: string, now: int, lifetime: int)
    requires Inv(rows) && token in rows && minted !in rows
    requires rows[token].revokedAt.None? && rows[token].usedAt.None?
    ensures Inv(Replace(rows, token, minted, now, lifetime))
  {
    var rows' := Replace(rows, token, minted, now, lifetime);
    var own := ChainOf(rows, token);
    ReplaceChain(rows, token, minted, now, lifetime, own);
    forall id | id in rows'
      ensures HasChain(rows', rows'[id].family)
    {
      if rows'[id].family != rows[token].family {
        var f := rows[id].family;
        var chain := ChainOf(rows, id);
        ChainFrame(rows, rows', f, chain);
      }
    }
  }

  lemma ApplyKeepsInv(rows: Ledger, s: Step, lifetime: int)
    requires Inv(rows) && Fresh(rows, s)
    ensures Inv(Apply(rows, s, lifetime))
  {
    match s {
      case Login(token, family, user, now) => IssueKeepsInv(rows, token, family, user, now + lifetime);
      case Logout(family, now) => RevokeKeepsInv(rows, family, now);
      case Present(id, minted, now) =>
        if id in rows && rows[id].revokedAt.None? {
          if rows[id].usedAt.Some? {
            RevokeKeepsInv(rows, rows[id].family, now);
          } else {
            ReplaceKeepsInv(rows, id, minted, now, lifetime);
          }
        }
    }
  }

  /** In every run of logins, logouts and rotations, every family is one chain with exactly one unused token,
      all live or all revoked. */
  lemma {:induction false} RunKeepsInv(run: Run, lifetime: int, n: nat)
    requires ValidRun(run, lifetime) && n < |run.states|
    ensures Inv(run.states[n])
  {
    if n > 0 {
      RunKeepsInv(run, lifetime, n - 1);
      ApplyKeepsInv(run.states[n - 1], run.steps[n - 1], lifetime);
    }
  }

  // ----- Whose tokens a family holds -----

  /** Every row of the family is the user's. */
  ghost predicate BelongsTo(rows: Ledger, family: string, user: string) {
    forall id :: id in rows && rows[id].family == family ==> rows[id].user == user
  }

  lemma StepKeepsUser(rows: Ledger, s: Step, lifetime: int, family: string, user: string)
    requires Fresh(rows, s) && BelongsTo(rows, family, user)
    requires s.Login? && s.family == family ==> s.user == user
    ensures BelongsTo(Apply(rows, s, lifetime), family, user)
  {
  }

  /** In every run, all tokens of a family are those of the user whose login started it. */
  lemma {:induction false} FamilyKeepsUser(run: Run, lifetime: int, k: nat, j: nat)
    requires ValidRun(run, lifetime) && k < j < |run.states| && k < |run.steps| && run.steps[k].Login?
    ensures BelongsTo(run.states[j], run.steps[k].family, run.steps[k].user)
    ensures run.steps[k].token in run.states[j] && run.states[j][run.steps[k].token].family == run.steps[k].family
  {
    var login := run.steps[k];
    assert IsStep(run.states[k], login, run.states[k + 1], lifetime);
    if j > k + 1 {
      FamilyKeepsUser(run, lifetime, k, j - 1);
      assert IsStep(run.states[j - 1], run.steps[j - 1], run.states[j], lifetime);
      StepKeepsUser(run.states[j - 1], run.steps[j - 1], lifetime, login.family, login.user);
    }
  }

  // ----- When a presentation succeeds -----

  /** The two ways to obtain a token: present the live unexpired tail, or the tail's predecessor while its use is
      at most three seconds old. */
  ghost predicate Accepts(rows: Ledger, chain: seq<string>, id: string, now: int) {
    && Live(rows, chain)
    && chain != []
    && ((id == chain[|chain| - 1] && id in rows && now < rows[id].expiresAt)
        || (|chain| >= 2 && id == chain[|chain| - 2] && id in rows && rows[id].usedAt.Some?
            && now - rows[id].usedAt.value <= 3_000_000))
  }

  /** Exactly when a presentation yields a token, which one, and what every other presentation does. */
  lemma RotationExactly(rows: Ledger, id: string, minted: string, now: int, lifetime: int, chain: seq<string>)
    requires id in rows && minted !in rows && IsChain(rows, rows[id].family, chain)
    ensures
      var (rows', outcome) := Rotation(rows, id, minted, now, lifetime);
      && (outcome.Token? <==> Accepts(rows, chain, id, now))
      && (outcome.Token? ==> outcome.id == if id == chain[|chain| - 1] then minted else chain[|chain| - 1])
      && (outcome.Token? && id != chain[|chain| - 1] ==> rows' == rows)
      && (outcome == ReuseDetected <==>
            Live(rows, chain) && id != chain[|chain| - 1] && !Accepts(rows, chain, id, now))
      && (outcome == ReuseDetected ==> Dead(rows', rows[id].family))
      && (outcome == Revoked <==> !Live(rows, chain))
      && (outcome == Revoked || outcome == Expired ==> rows' == rows)
  {
    var family := rows[id].family;
    assert InFamily(rows, family, id);
    var k :| 0 <= k < |chain| && chain[k] == id;
    if rows[id].revokedAt.None? {
      assert Live(rows, chain);
      if k < |chain| - 1 {
        assert rows[id].replacedBy == Some(chain[k + 1]);
        assert InFamily(rows, family, chain[k + 1]);
        if k + 1 < |chain| - 1 {
          assert rows[chain[k + 1]].usedAt.Some?;
        }
        RevokeChain(rows, family, chain, now);
      }
    }
  }

  /** Presenting the same live token twice: the second presentation returns the same successor if it comes within
      three seconds, and otherwise ends the family. */
  lemma SecondPresentation(
    rows: Ledger, id: string, minted: string, minted2: string, t1: int, t2: int, lifetime: int)
    requires Inv(rows) && id in rows && minted !in rows
    requires minted2 !in Rotation(rows, id, minted, t1, lifetime).0
    requires Rotation(rows, id, minted, t1, lifetime).1 == Token(minted)
    ensures
      var (rows2, outcome2) := Rotation(Rotation(rows, id, minted, t1, lifetime).0, id, minted2, t2, lifetime);
      && (t2 - t1 <= 3_000_000 <==> outcome2 == Token(minted))
      && (t2 - t1 > 3_000_000 <==> outcome2 == ReuseDetected)
      && (outcome2 == ReuseDetected ==> Dead(rows2, rows[id].family))
  {
    var chain := ChainOf(rows, id);
    RotationExactly(rows, id, minted, t1, lifetime, chain);
    assert InFamily(rows, rows[id].family, chain[|chain| - 1]);
    ReplaceChain(rows, id, minted, t1, lifetime, chain);
    var rows1 := Replace(rows, id, minted, t1, lifetime);
    RotationExactly(rows1, id, minted2, t2, lifetime, chain + [minted]);
  }

  // ----- A revoked family stays revoked -----

  /** The family of `id` exists and every one of its tokens is revoked. */
  ghost predicate Ended(rows: Ledger, family: string, id: string) {
    InFamily(rows, family, id) && Dead(rows, family)
  }

  lemma ApplyKeepsEnded(rows: Ledger, s: Step, lifetime: int, family: string, id: string)
    requires Fresh(rows, s) && Ended(rows, family, id)
    ensures Ended(Apply(rows, s, lifetime), family, id)
  {
    var rows' := Apply(rows, s, lifetime);
    forall x | InFamily(rows', family, x)
      ensures InFamily(rows, family, x) && rows'[x].revokedAt.Some?
    {
      if s.Present? && s.id in rows && rows[s.id].family == family {
        assert InFamily(rows, family, s.id);
      }
    }
  }

  lemma {:induction false} EndedFrom(run: Run, lifetime: int, k: nat, j: nat, family: string, id: string)
    requires ValidRun(run, lifetime) && k <= j < |run.states|
    requires Ended(run.states[k], family, id)
    ensures Ended(run.states[j], family, id)
  {
    if k < j {
      EndedFrom(run, lifetime, k, j - 1, family, id);
      ApplyKeepsEnded(run.states[j - 1], run.steps[j - 1], lifetime, family, id);
    }
  }

  lemma DetectionEndsFamily(rows: Ledger, id: string, minted: string, now: int, lifetime: int)
    requires Inv(rows) && id in rows && minted !in rows
    requires Rotation(rows, id, minted, now, lifetime).1 == ReuseDetected
    ensures Ended(Rotation(rows, id, minted, now, lifetime).0, rows[id].family, id)
  {
    var chain := ChainOf(rows, id);
    RotationExactly(rows, id, minted, now, lifetime, chain);
  }

  /** What the store answers at the `k`-th step. */
  function Answer(run: Run, lifetime: int, k: nat): Outcome
    requires k < |run.steps| && k < |run.states| && run.steps[k].Present?
  {
    Rotation(run.states[k], run.steps[k].id, run.steps[k].minted, run.steps[k].now, lifetime).1
  }

  /** Once reuse is detected in a family, no later presentation of any of its tokens succeeds, in any run. */
  lemma ReuseEndsFamily(run: Run, lifetime: int, k: nat, j: nat)
    requires ValidRun(run, lifetime) && k < j < |run.steps| && run.steps[k].Present? && run.steps[j].Present?
    requires Answer(run, lifetime, k) == ReuseDetected
    requires InFamily(run.states[j], run.states[k][run.steps[k].id].family, run.steps[j].id)
    ensures Answer(run, lifetime, j) == Revoked
  {
    var rows, s := run.states[k], run.steps[k];
    RunKeepsInv(run, lifetime, k);
    DetectionEndsFamily(rows, s.id, s.minted, s.now, lifetime);
    EndedFrom(run, lifetime, k + 1, j, rows[s.id].family, s.id);
  }

  // ----- Two parties holding the same token -----

  /** A token once used keeps the time of its use and its successor. */
  ghost predicate UsedAt(rows: Ledger, id: string, now: int, next: string) {
    id in rows && rows[id].usedAt == Some(now) && rows[id].replacedBy == Some(next)
  }

  lemma {:induction false} UsedAtFrom(run: Run, lifetime: int, k: nat, j: nat, id: string, now: int, next: string)
    requires ValidRun(run, lifetime) && k <= j < |run.states|
    requires UsedAt(run.states[k], id, now, next)
    ensures UsedAt(run.states[j], id, now, next)
  {
    if k < j {
      UsedAtFrom(run, lifetime, k, j - 1, id, now, next);
      assert IsStep(run.states[j - 1], run.steps[j - 1], run.states[j], lifetime);
    }
  }

  /** A rotation that hands out the new token records its time and the new token. */
  lemma RotationGivesUse(rows: Ledger, id: string, minted: string, now: int, lifetime: int)
    requires Inv(rows) && minted !in rows && Rotation(rows, id, minted, now, lifetime).1 == Token(minted)
    ensures UsedAt(Rotation(rows, id, minted, now, lifetime).0, id, now, minted)
  {
    var chain := ChainOf(rows, id);
    RotationExactly(rows, id, minted, now, lifetime, chain);
  }

  /** A used token's successor follows it in the chain; it is the last one exactly when it is unused. */
  lemma SuccessorInChain(rows: Ledger, id: string, chain: seq<string>)
    requires id in rows && IsChain(rows, rows[id].family, chain) && rows[id].usedAt.Some?
    ensures rows[id].replacedBy.Some? && InFamily(rows, rows[id].family, rows[id].replacedBy.value)
    ensures
      var next := rows[id].replacedBy.value;
      && (rows[next].usedAt.None? <==> next == chain[|chain| - 1])
      && (next == chain[|chain| - 1] ==> |chain| >= 2 && id == chain[|chain| - 2])
      && id != chain[|chain| - 1]
  {
    assert InFamily(rows, rows[id].family, id);
    var k :| 0 <= k < |chain| && chain[k] == id;
    assert InFamily(rows, rows[id].family, chain[k + 1]);
  }

  /** In every run, after step `k` rotated a token, a later presentation of the same token gets the same successor if
      and only if it comes within three seconds of step `k`, the successor is still unused, and it is not revoked.
      Every other presentation gets no token and leaves the family without a live one. */
  lemma SharedTokenExactly(run: Run, lifetime: int, k: nat, j: nat)
    requires ValidRun(run, lifetime) && k < j < |run.steps| && run.steps[k].Present? && run.steps[j].Present?
    requires run.steps[k].id == run.steps[j].id
    requires Answer(run, lifetime, k) == Token(run.steps[k].minted)
    ensures run.steps[k].minted in run.states[j] && run.steps[j].id in run.states[j]
    ensures
      var next := run.states[j][run.steps[k].minted];
      && (Answer(run, lifetime, j) == Token(run.steps[k].minted) <==>
            && run.steps[j].now - run.steps[k].now <= 3_000_000
            && next.usedAt.None? && next.revokedAt.None?)
      && (Answer(run, lifetime, j) != Token(run.steps[k].minted) ==>
            && !Answer(run, lifetime, j).Token?
            && Ended(run.states[j + 1], run.states[j][run.steps[j].id].family, run.steps[j].id))
  {
    var id, minted := run.steps[k].id, run.steps[k].minted;
    assert IsStep(run.states[k], run.steps[k], run.states[k + 1], lifetime);
    RunKeepsInv(run, lifetime, k);
    RotationGivesUse(run.states[k], id, minted, run.steps[k].now, lifetime);
    UsedAtFrom(run, lifetime, k + 1, j, id, run.steps[k].now, minted);
    var rows, s := run.states[j], run.steps[j];
    assert IsStep(rows, s, run.states[j + 1], lifetime);
    RunKeepsInv(run, lifetime, j);
    var chain := ChainOf(rows, id);
    SuccessorInChain(rows, id, chain);
    RotationExactly(rows, id, s.minted, s.now, lifetime, chain);
  }

  const SECOND := 1_000_000

  /** Two parties in lock step: both present `a` within a second and get `b`; ten minutes later both present `b`
      within a second and get `c`. */
  function LockStep(): Run {
    var steps := [
      Login("a", "f", "u", 0),
      Present("a", "b", 0), Present("a", "x", 1 * SECOND),
      Present("b", "c", 600 * SECOND), Present("b", "y", 601 * SECOND)];
    var s1 := Apply(map[], steps[0], 3600 * SECOND);
    var s2 := Apply(s1, steps[1], 3600 * SECOND);
    var s3 := Apply(s2, steps[2], 3600 * SECOND);
    var s4 := Apply(s3, steps[3], 3600 * SECOND);
    Run(steps, [map[], s1, s2, s3, s4, Apply(s4, steps[4], 3600 * SECOND)])
  }

  /** The next refresh need not turn either party away, although three seconds have passed and the shared successor
      has been used: a run in which every presentation succeeds. */
  lemma LockStepGoesUnnoticed()
    ensures ValidRun(LockStep(), 3600 * SECOND)
    ensures Answer(LockStep(), 3600 * SECOND, 1) == Answer(LockStep(), 3600 * SECOND, 2) == Token("b")
    ensures Answer(LockStep(), 3600 * SECOND, 3) == Answer(LockStep(), 3600 * SECOND, 4) == Token("c")
  {
    var run := LockStep();
    assert run.states[1]["a"] == Row("f", "u", 3600 * SECOND, None, None, None);
    assert run.states[2]["a"] == Row("f", "u", 3600 * SECOND, Some(0), Some("b"), None);
    assert run.states[2]["b"] == Row("f", "u", 3600 * SECOND, None, None, None);
    assert run.states[3] == run.states[2];
    assert run.states[4]["b"].usedAt == Some(600 * SECOND) && run.states[4]["b"].replacedBy == Some("c");
    assert run.states[4]["c"].usedAt.None? && run.states[4]["c"].revokedAt.None?;
    forall k | 0 <= k < |run.steps|
      ensures IsStep(run.states[k], run.steps[k], run.states[k + 1], 3600 * SECOND)
    {
    }
  }

  /** In every run, a used token presented more than three seconds after its use yields no token and ends its family. */
  lemma LateReuseIsRejected(run: Run, lifetime: int, k: nat)
    requires ValidRun(run, lifetime) && k < |run.steps| && run.steps[k].Present?
    requires
      var rows, id := run.states[k], run.steps[k].id;
      && id in rows && rows[id].usedAt.Some?
      && run.steps[k].now - rows[id].usedAt.value > 3_000_000
    ensures !Answer(run, lifetime, k).Token?
    ensures Ended(run.states[k + 1], run.states[k][run.steps[k].id].family, run.steps[k].id)
  {
    var rows, s := run.states[k], run.steps[k];
    RunKeepsInv(run, lifetime, k);
    var chain := ChainOf(rows, s.id);
    RotationExactly(rows, s.id, s.minted, s.now, lifetime, chain);
  }
}
