/** The admin action log: append-only rows on the same chain as the journal. */
module AdminLog {
  import opened Common
  import opened AuditChain

  datatype Outcome = Success | Failure | Denied

  /** The hashed content of a row besides its sequence number. */
  datatype ActionRow = ActionRow(admin: int, action: string, targetType: string, targetId: string, targetRepr: string,
                                 note: string, ip: string, userAgent: string, metadata: string,
                                 outcome: Outcome, createdAt: int)

  /** What anybody may try on the log through its model. */
  datatype Attempt =
    | DoSave(key: Option<nat>, content: ActionRow)   // a new row has no key yet
    | DoDelete(row: nat)

  predicate IsAccepted(a: Attempt) {
    a.DoSave? && a.key.None?
  }

  function Attempted(h: Digest<ActionRow>, rows: seq<Record<ActionRow>>, a: Attempt): seq<Record<ActionRow>> {
    if IsAccepted(a) then rows + [Seal(h, rows, a.content)] else rows
  }

  function After(h: Digest<ActionRow>, rows: seq<Record<ActionRow>>, attempts: seq<Attempt>): seq<Record<ActionRow>> {
    if attempts == [] then rows
    else Attempted(h, After(h, rows, attempts[..|attempts| - 1]), attempts[|attempts| - 1])
  }

  class ActionLog {
    const hash: Digest<ActionRow>
    var rows: seq<Record<ActionRow>>

    ghost predicate Valid()
      reads this
    {
      Sealed(hash, rows)
    }

    constructor (hash: Digest<ActionRow>)
      ensures Valid() && rows == [] && this.hash == hash
    {
      this.hash := hash;
      rows := [];
    }

    /** Stores a new row sealed onto the tail; a row that already has a key is refused. */
    method Save(key: Option<nat>, content: ActionRow) returns (stored: bool)
      requires Valid()
      modifies this`rows
      ensures Valid() && (stored <==> key.None?)
      ensures rows == Attempted(hash, old(rows), DoSave(key, content))
    {
      if key.Some? {
        return false;
      }
      var seqNo := if rows == [] then 1 else rows[|rows| - 1].seqNo + 1;
      var prev := if rows == [] then GENESIS else rows[|rows| - 1].entryHash;
      SealExtends(hash, rows, content);
      rows := rows + [Record(seqNo, prev, hash(seqNo, content, prev), content)];
      return true;
    }

    /** Deletion is refused and leaves the log as it was. */
    method Delete(i: nat) returns (deleted: bool)
      modifies this`rows
      ensures !deleted && rows == Attempted(hash, old(rows), DoDelete(i))
    {
      return false;
    }

    /** The periodic verification of an untouched log succeeds and counts every row. */
    method Verify() returns (v: Verdict)
      requires Valid()
      ensures v == ChainOk(|rows|)
    {
      v := VerifyChain(hash, rows);
    }
  }

  function AcceptedContents(attempts: seq<Attempt>): seq<ActionRow> {
    if attempts == [] then []
    else
      AcceptedContents(attempts[..|attempts| - 1])
        + (if IsAccepted(attempts[|attempts| - 1]) then [attempts[|attempts| - 1].content] else [])
  }

  /** Whatever saves and deletions are tried, in whatever order: no row that was ever stored changes or
      disappears, the log stays sealed and numbered without a gap, and behind the old rows stand exactly
      the contents of the new ones, in order. */
  lemma {:induction false} LogIsAppendOnly(h: Digest<ActionRow>, rows: seq<Record<ActionRow>>, attempts: seq<Attempt>)
    requires Sealed(h, rows)
    ensures var later := After(h, rows, attempts);
            && Sealed(h, later) && rows <= later
            && |later| == |rows| + |AcceptedContents(attempts)|
            && (forall i :: 0 <= i < |later| ==> later[i].seqNo == i + 1)
            && (forall k :: 0 <= k < |AcceptedContents(attempts)| ==>
                  later[|rows| + k].payload == AcceptedContents(attempts)[k])
  {
    var later := After(h, rows, attempts);
    if attempts != [] {
      var init, a := attempts[..|attempts| - 1], attempts[|attempts| - 1];
      LogIsAppendOnly(h, rows, init);
      if IsAccepted(a) {
        SealExtends(h, After(h, rows, init), a.content);
      }
    }
    forall i | 0 <= i < |later|
      ensures later[i].seqNo == i + 1
    {
      SealedNumbering(h, later, i);
    }
  }

  /** Two logs with the same last digest hold the same rows, unless the digest function collides. */
  lemma LogHeadCommits(h: Digest<ActionRow>, a: seq<Record<ActionRow>>, b: seq<Record<ActionRow>>)
    requires Sealed(h, a) && Sealed(h, b) && a != [] && b != []
    requires a[|a| - 1].entryHash == b[|b| - 1].entryHash
    ensures a == b || HasCollision(h, a, b)
  {
    HeadCommitsToHistory(h, a, b);
  }
}
