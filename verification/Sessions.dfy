/** Session tokens with rotation and a grace period (internal/sessions/sessions.go). Tokens stand for their
  * hashes, and time is integer nanoseconds. */
module Sessions {
  import opened Common

  const GRACE_PERIOD := 30 * 1_000_000_000

  type Token = nat

  datatype Principal = Principal(agent: nat, covenant: nat)

  datatype Status = Active | Grace(rotatedAt: int) | Expired

  datatype Row = Row(principal: Principal, status: Status)

  /** session_tokens, keyed by token hash. */
  type Rows = map<Token, Row>

  datatype Answer = Answer(valid: bool, inGrace: bool)

  const REFUSED := Answer(false, false)

  /** What can happen to the table. */
  datatype Event =
    | Issue(who: Principal, raw: Token)
    | Rotate(who: Principal, raw: Token)
    | Validate(raw: Token, who: Principal)
    | ExpireGraceTokens

  /** session_tokens and its operations. */
  class Store {
    var rows: Rows

    constructor ()
      ensures rows == map[]
    {
      rows := map[];
    }

    /** Issue; token_hash is UNIQUE, and a random token is fresh. */
    method Issue(who: Principal, raw: Token, now: int)
      requires raw !in rows
      modifies this
      ensures rows == Step(old(rows), Event.Issue(who, raw), now)
      ensures rows == old(rows)[raw := Row(who, Active)]
    {
      rows := rows[raw := Row(who, Active)];
    }

    /** Rotate, one transaction: every active row of the principal enters grace, one new row is active. */
    method Rotate(who: Principal, raw: Token, now: int)
      requires raw !in rows
      modifies this
      ensures rows == Step(old(rows), Event.Rotate(who, raw), now)
      ensures forall t :: t in rows && rows[t].principal == who ==> (rows[t].status.Active? <==> t == raw)
      ensures rows.Keys == old(rows).Keys + {raw} && rows[raw] == Row(who, Active)
      ensures forall t :: t in old(rows) ==>
                rows[t] == if old(rows)[t] == Row(who, Active) then Row(who, Grace(now)) else old(rows)[t]
    {
      rows := map t | t in rows :: if rows[t].principal == who && rows[t].status.Active?
                                   then Row(who, Grace(now)) else rows[t];
      rows := rows[raw := Row(who, Active)];
    }

    /** Validate, which lazily expires a stale grace row. */
    method Validate(raw: Token, who: Principal, now: int) returns (answer: Answer)
      modifies this
      ensures rows == Step(old(rows), Event.Validate(raw, who), now)
      ensures answer == Reply(old(rows), raw, who, now)
      ensures rows == if raw in old(rows) && old(rows)[raw].principal == who && old(rows)[raw].status.Grace?
                         && now - old(rows)[raw].status.rotatedAt > 30 * 1_000_000_000
                      then old(rows)[raw := Row(who, Expired)] else old(rows)
    {
      if raw !in rows || rows[raw].principal != who {
        return REFUSED;
      }
      match rows[raw].status {
        case Expired => return REFUSED;
        case Active => return Answer(true, false);
        case Grace(rotated) =>
          if now - rotated > GRACE_PERIOD {
            rows := rows[raw := rows[raw].(status := Expired)];
            return REFUSED;
          }
          return Answer(true, true);
      }
    }

    method ValidateForCovenant(raw: Token, covenant: nat, now: int) returns (valid: bool)
      ensures valid <==> ValidForCovenant(rows, raw, covenant, now)
    {
      if raw !in rows || rows[raw].principal.covenant != covenant {
        return false;
      }
      match rows[raw].status {
        case Active => return true;
        case Grace(rotated) => return now - rotated <= GRACE_PERIOD;
        case Expired => return false;
      }
    }

    /** ExpireGraceTokens returns the number of rows it touched. */
    method ExpireGraceTokens(now: int) returns (n: nat)
      modifies this
      ensures rows == Step(old(rows), Event.ExpireGraceTokens, now)
      ensures rows.Keys == old(rows).Keys && forall t :: t in rows ==>
                rows[t] == if old(rows)[t].status.Grace? && now - old(rows)[t].status.rotatedAt > 30 * 1_000_000_000
                           then Row(old(rows)[t].principal, Expired) else old(rows)[t]
      ensures n == |set t | t in old(rows) && Stale(old(rows)[t].status, now)|
    {
      var touched := set t | t in rows && Stale(rows[t].status, now);
      rows := map t | t in rows :: if t in touched then rows[t].(status := Expired) else rows[t];
      n := |touched|;
    }
  }

  predicate Stale(status: Status, now: int) {
    status.Grace? && status.rotatedAt < now - GRACE_PERIOD
  }

  /** The table after one operation. */
  function Step(rows: Rows, event: Event, now: int): Rows {
    match event
    case Issue(who, raw) =>
      rows[raw := Row(who, Active)]
    case Rotate(who, raw) =>
      (map t | t in rows :: if rows[t].principal == who && rows[t].status.Active?
                            then Row(who, Grace(now)) else rows[t])[raw := Row(who, Active)]
    case Validate(raw, who) =>
      if raw in rows && rows[raw].principal == who && Stale(rows[raw].status, now)
      then rows[raw := Row(who, Expired)] else rows
    case ExpireGraceTokens =>
      map t | t in rows :: if Stale(rows[t].status, now) then rows[t].(status := Expired) else rows[t]
  }

  /** The reply of Validate in a table. */
  function Reply(rows: Rows, raw: Token, who: Principal, now: int): Answer {
    if raw !in rows || rows[raw].principal != who then REFUSED
    else match rows[raw].status
      case Expired => REFUSED
      case Active => Answer(true, false)
      case Grace(rotated) => if now - rotated > GRACE_PERIOD then REFUSED else Answer(true, true)
  }

  /** ValidateForCovenant never writes and asks for the covenant alone, whichever agent of it holds the token. */
  predicate ValidForCovenant(rows: Rows, raw: Token, covenant: nat, now: int) {
    raw in rows && rows[raw].principal.covenant == covenant
    && match rows[raw].status
       case Active => true
       case Grace(rotated) => now - rotated <= GRACE_PERIOD
       case Expired => false
  }

  /** An operation at its time. */
  datatype Timed = Timed(event: Event, now: int)

  type History = seq<Timed>

  function Replay(h: History): Rows {
    if h == [] then map[] else Step(Replay(h[..|h| - 1]), h[|h| - 1].event, h[|h| - 1].now)
  }

  predicate Creates(e: Event, raw: Token) {
    (e.Issue? || e.Rotate?) && e.raw == raw
  }

  predicate RotatesOut(e: Event, who: Principal) {
    e.Rotate? && e.who == who
  }

  /** Non-decreasing clock, and every created token is fresh. */
  ghost predicate Plausible(h: History) {
    && (forall i, j :: 0 <= i < j < |h| ==> h[i].now <= h[j].now)
    && (forall i, j, raw :: 0 <= i < j < |h| && Creates(h[i].event, raw) ==> !Creates(h[j].event, raw))
  }

  /** A token's owner and the time it was rotated out, read off the issues and rotations alone. */
  datatype Life = Life(owner: Principal, rotatedOut: Option<int>)

  /** The life of `raw` in a history; validations and sweeps play no part in it. */
  ghost function LifeOf(h: History, raw: Token): Option<Life> {
    if h == [] then None
    else
      var before := LifeOf(h[..|h| - 1], raw);
      var last := h[|h| - 1];
      if Creates(last.event, raw) then Some(Life(last.event.who, None))
      else if before.Some? && before.value.rotatedOut.None? && RotatesOut(last.event, before.value.owner)
        then Some(before.value.(rotatedOut := Some(last.now)))
      else before
  }

  /** The documented answer: a pure function of the token's life and the time. */
  ghost function Documented(h: History, raw: Token, who: Principal, now: int): Answer {
    match LifeOf(h, raw)
    case None => REFUSED
    case Some(Life(owner, rotatedOut)) =>
      if owner != who then REFUSED
      else if rotatedOut.None? then Answer(true, false)
      else if now - rotatedOut.value > GRACE_PERIOD then REFUSED
      else Answer(true, true)
  }

  /** How a row may relate to its token's life at time `now`: Expired only once the grace period is over. */
  ghost predicate Agrees(row: Row, life: Life, now: int) {
    && row.principal == life.owner
    && match row.status
       case Active => life.rotatedOut == None
       case Grace(r) => life.rotatedOut == Some(r)
       case Expired => life.rotatedOut.Some? && now - life.rotatedOut.value > GRACE_PERIOD
  }

  lemma {:induction false} RowsFollowLives(h: History, raw: Token)
    requires Plausible(h)
    ensures raw in Replay(h) <==> LifeOf(h, raw).Some?
    ensures h != [] && raw in Replay(h) ==> Agrees(Replay(h)[raw], LifeOf(h, raw).value, h[|h| - 1].now)
  {
    if h != [] {
      var n := |h| - 1;
      RowsFollowLives(h[..n], raw);
      assert h[..n] != [] ==> h[..n][n - 1].now <= h[n].now;
    }
  }

  /** Main result: whatever validations and sweeps happened before, and whatever they wrote, the answer is the
    * documented function of issues, rotations and time. */
  lemma ExpiryIsTransparent(h: History, raw: Token, who: Principal, covenant: nat, now: int)
    requires Plausible(h)
    requires h != [] ==> h[|h| - 1].now <= now
    ensures Reply(Replay(h), raw, who, now) == Documented(h, raw, who, now)
    ensures ValidForCovenant(Replay(h), raw, covenant, now) <==> exists agent :: Documented(h, raw, Principal(agent, covenant), now).valid
  {
    RowsFollowLives(h, raw);
    if raw in Replay(h) {
      var owner := LifeOf(h, raw).value.owner;
      assert Documented(h, raw, owner, now) == Reply(Replay(h), raw, owner, now) && owner == Principal(owner.agent, owner.covenant);
    }
  }

  lemma {:induction false} RotationIsFinal(h: History, more: History, raw: Token)
    requires Plausible(h + more)
    requires LifeOf(h, raw).Some? && LifeOf(h, raw).value.rotatedOut.Some?
    ensures LifeOf(h + more, raw) == LifeOf(h, raw)
  {
    if more == [] {
      assert h + more == h;
    } else {
      var n := |more| - 1;
      assert (h + more)[..|h| + n] == h + more[..n];
      RotationIsFinal(h, more[..n], raw);
      if Creates(more[n].event, raw) {
        CreatedOnce(h + more, |h|, |h| + n, raw);
      }
    }
  }

  lemma {:induction false} CreatedOnce(h: History, n: nat, k: nat, raw: Token)
    requires Plausible(h) && n <= k < |h| && Creates(h[k].event, raw)
    ensures LifeOf(h[..n], raw) == None
  {
    if n > 0 {
      assert h[..n][..n - 1] == h[..n - 1];
      CreatedOnce(h, n - 1, k, raw);
    }
  }

  /** Main result: a rotated-out token that stopped being valid never becomes valid again. */
  lemma InvalidStaysInvalid(h: History, more: History, raw: Token, who: Principal, now: int, later: int)
    requires Plausible(h + more) && now <= later
    requires LifeOf(h, raw).Some? && LifeOf(h, raw).value.rotatedOut.Some?
    requires !Documented(h, raw, who, now).valid
    ensures !Documented(h + more, raw, who, later).valid
  {
    RotationIsFinal(h, more, raw);
  }

  /** A token is valid while it is its principal's only one, and for thirty seconds after the next one was issued in its place. */
  lemma ValidForThirtySeconds(h: History, raw: Token, who: Principal, now: int)
    requires Plausible(h) && (h != [] ==> h[|h| - 1].now <= now)
    ensures Reply(Replay(h), raw, who, now).valid
       <==> LifeOf(h, raw).Some? && LifeOf(h, raw).value.owner == who
            && (LifeOf(h, raw).value.rotatedOut.Some? ==> now <= LifeOf(h, raw).value.rotatedOut.value + 30 * 1_000_000_000)
    ensures Reply(Replay(h), raw, who, now).inGrace ==> Reply(Replay(h), raw, who, now).valid && LifeOf(h, raw).value.rotatedOut.Some?
  {
    ExpiryIsTransparent(h, raw, who, who.covenant, now);
  }
}
