/** The tamper-evidence chain shared by the journal and the admin action log. */
module AuditChain {
  import opened Common

  /** A chained row: its sequence number, the two digests, and the rest of the hashed content. */
  datatype Record<+P> = Record(seqNo: int, prevHash: string, entryHash: string, payload: P)

  /** The digest of (sequence number, content) chained to the previous digest. */
  type Digest<!P> = (int, P, string) -> string

  const GENESIS := ""

  predicate LinkOk<P>(h: Digest<P>, rs: seq<Record<P>>, i: nat)
    requires i < |rs|
  {
    && (i > 0 ==> rs[i].seqNo == rs[i - 1].seqNo + 1)
    && rs[i].prevHash == (if i == 0 then GENESIS else rs[i - 1].entryHash)
    && h(rs[i].seqNo, rs[i].payload, rs[i].prevHash) == rs[i].entryHash
  }

  ghost predicate Intact<P>(h: Digest<P>, rs: seq<Record<P>>) {
    forall i :: 0 <= i < |rs| ==> LinkOk(h, rs, i)
  }

  /** The chain a writer produces: intact, and numbered from 1. */
  ghost predicate Sealed<P>(h: Digest<P>, rs: seq<Record<P>>) {
    && Intact(h, rs)
    && (rs != [] ==> rs[0].seqNo == 1)
  }

  /** The row that seals `payload` onto the current tail. */
  function Seal<P>(h: Digest<P>, rs: seq<Record<P>>, payload: P): Record<P> {
    var seqNo := if rs == [] then 1 else rs[|rs| - 1].seqNo + 1;
    var prev := if rs == [] then GENESIS else rs[|rs| - 1].entryHash;
    Record(seqNo, prev, h(seqNo, payload, prev), payload)
  }

  lemma SealExtends<P>(h: Digest<P>, rs: seq<Record<P>>, payload: P)
    requires Sealed(h, rs)
    ensures Sealed(h, rs + [Seal(h, rs, payload)])
  {
    var rs' := rs + [Seal(h, rs, payload)];
    forall i | 0 <= i < |rs'|
      ensures LinkOk(h, rs', i)
    {
      assert i < |rs| ==> LinkOk(h, rs, i);
    }
  }

  /** Rows of a sealed chain are numbered 1, 2, 3, ... without a gap. */
  lemma {:induction false} SealedNumbering<P>(h: Digest<P>, rs: seq<Record<P>>, i: nat)
    requires Sealed(h, rs) && i < |rs|
    ensures rs[i].seqNo == i + 1
  {
    assert LinkOk(h, rs, i);
    if i > 0 {
      SealedNumbering(h, rs, i - 1);
    }
  }

  /** Two rows whose hashed contents differ although their digests agree. */
  predicate Collide<P(==)>(h: Digest<P>, a: Record<P>, b: Record<P>) {
    && (a.seqNo != b.seqNo || a.payload != b.payload || a.prevHash != b.prevHash)
    && h(a.seqNo, a.payload, a.prevHash) == h(b.seqNo, b.payload, b.prevHash)
  }

  ghost predicate HasCollision<P>(h: Digest<P>, a: seq<Record<P>>, b: seq<Record<P>>) {
    exists i, j :: 0 <= i < |a| && 0 <= j < |b| && Collide(h, a[i], b[j])
  }

  /** The head digest commits to the whole history: chains with the same head are equal row by
      row, unless the digest function itself collides on two of their rows. */
  lemma {:induction false} HeadCommitsToHistory<P>(h: Digest<P>, a: seq<Record<P>>, b: seq<Record<P>>)
    requires Sealed(h, a) && Sealed(h, b) && a != [] && b != []
    requires a[|a| - 1].entryHash == b[|b| - 1].entryHash
    ensures a == b || HasCollision(h, a, b)
    decreases |a|
  {
    var m, n := |a| - 1, |b| - 1;
    assert LinkOk(h, a, m) && LinkOk(h, b, n);
    if !Collide(h, a[m], b[n]) {
      SealedNumbering(h, a, m);
      SealedNumbering(h, b, n);
      assert m == n && a[m] == b[n];
      if m > 0 {
        SealedPrefix(h, a, m);
        SealedPrefix(h, b, n);
        HeadCommitsToHistory(h, a[..m], b[..n]);
        if a[..m] == b[..n] {
          assert a == a[..m] + [a[m]] && b == b[..n] + [b[n]];
        } else {
          var i, j :| 0 <= i < m && 0 <= j < n && Collide(h, a[..m][i], b[..n][j]);
          assert Collide(h, a[i], b[j]);
        }
      }
    }
  }

  lemma SealedPrefix<P>(h: Digest<P>, rs: seq<Record<P>>, n: nat)
    requires Sealed(h, rs) && n <= |rs|
    ensures Sealed(h, rs[..n])
  {
    forall i | 0 <= i < n
      ensures LinkOk(h, rs[..n], i)
    {
      assert LinkOk(h, rs, i);
    }
  }

  /** Deleting a block of rows goes unnoticed exactly when it is a suffix: only truncation at the
      tail leaves a chain that still verifies. */
  lemma DeletionDetected<P>(h: Digest<P>, rs: seq<Record<P>>, i: nat, j: nat)
    requires Sealed(h, rs) && i <= j <= |rs|
    requires forall s, p, prev :: h(s, p, prev) != GENESIS
    ensures Intact(h, rs[..i] + rs[j..]) <==> i == j || j == |rs|
  {
    var cut := rs[..i] + rs[j..];
    if j == |rs| {
      assert cut == rs[..i];
      SealedPrefix(h, rs, i);
    } else if i == j {
      assert cut == rs;
    } else {
      assert cut[i] == rs[j] && LinkOk(h, rs, j) && LinkOk(h, rs, j - 1);
      SealedNumbering(h, rs, j);
      if i > 0 {
        SealedNumbering(h, rs, i - 1);
        assert cut[i - 1] == rs[i - 1];
      }
      assert !LinkOk(h, cut, i);
    }
  }

  /** Rewriting the content of a row in place goes unnoticed only through a digest collision,
      and everything before the row still verifies: the break is located at that row. */
  lemma AlterationDetected<P>(h: Digest<P>, rs: seq<Record<P>>, i: nat, forged: P)
    requires Sealed(h, rs) && i < |rs| && forged != rs[i].payload
    ensures var rs' := rs[i := rs[i].(payload := forged)];
            && (Intact(h, rs') <==> Collide(h, rs[i], rs'[i]))
            && Intact(h, rs'[..i])
            && (Intact(h, rs'[..i + 1]) <==> Collide(h, rs[i], rs'[i]))
  {
    var rs' := rs[i := rs[i].(payload := forged)];
    assert LinkOk(h, rs, i);
    forall k | 0 <= k < |rs| && k != i
      ensures LinkOk(h, rs', k)
    {
      assert LinkOk(h, rs, k);
    }
    assert LinkOk(h, rs', i) <==> Collide(h, rs[i], rs'[i]);
    PrefixLinks(h, rs', i);
    PrefixLinks(h, rs', i + 1);
  }

  /** The same rows with other contents here and there, their numbers and digests left as they were. */
  ghost predicate Rewritten<P>(rs: seq<Record<P>>, rs': seq<Record<P>>) {
    |rs'| == |rs| && forall i :: 0 <= i < |rs| ==> rs'[i] == rs[i].(payload := rs'[i].payload)
  }

  predicate Unnoticed<P(==)>(h: Digest<P>, a: Record<P>, b: Record<P>) {
    a == b || Collide(h, a, b)
  }

  lemma RewrittenLink<P>(h: Digest<P>, rs: seq<Record<P>>, rs': seq<Record<P>>, i: nat)
    requires Sealed(h, rs) && Rewritten(rs, rs') && i < |rs|
    ensures LinkOk(h, rs', i) <==> Unnoticed(h, rs[i], rs'[i])
  {
    assert LinkOk(h, rs, i);
    assert i > 0 ==> rs'[i - 1] == rs[i - 1].(payload := rs'[i - 1].payload);
  }

  /** Row `i` is the first whose rewriting shows. */
  ghost predicate FirstNoticed<P>(h: Digest<P>, rs: seq<Record<P>>, rs': seq<Record<P>>, i: nat) {
    && i < |rs| == |rs'| && !Unnoticed(h, rs[i], rs'[i])
    && forall k :: 0 <= k < i ==> Unnoticed(h, rs[k], rs'[k])
  }

  /** Rewriting any number of rows in place goes unnoticed exactly when each of them collides. */
  lemma RewritingDetected<P>(h: Digest<P>, rs: seq<Record<P>>, rs': seq<Record<P>>)
    requires Sealed(h, rs) && Rewritten(rs, rs')
    ensures Intact(h, rs') <==> forall i :: 0 <= i < |rs| ==> Unnoticed(h, rs[i], rs'[i])
  {
    forall i | 0 <= i < |rs|
      ensures LinkOk(h, rs', i) <==> Unnoticed(h, rs[i], rs'[i])
    {
      RewrittenLink(h, rs, rs', i);
    }
  }

  /** Otherwise the break is at the first one that does not. */
  lemma RewritingLocated<P>(h: Digest<P>, rs: seq<Record<P>>, rs': seq<Record<P>>, i: nat)
    requires Sealed(h, rs) && Rewritten(rs, rs') && FirstNoticed(h, rs, rs', i)
    ensures Intact(h, rs'[..i]) && !Intact(h, rs'[..i + 1])
  {
    forall k | 0 <= k < i
      ensures LinkOk(h, rs', k)
    {
      RewrittenLink(h, rs, rs', k);
    }
    RewrittenLink(h, rs, rs', i);
    BrokenLink(h, rs', i);
  }

  lemma BrokenLink<P>(h: Digest<P>, rs: seq<Record<P>>, i: nat)
    requires i < |rs| && !LinkOk(h, rs, i) && forall k :: 0 <= k < i ==> LinkOk(h, rs, k)
    ensures Intact(h, rs[..i]) && !Intact(h, rs[..i + 1])
  {
    PrefixLinks(h, rs, i);
    PrefixLinks(h, rs, i + 1);
  }

  lemma PrefixLinks<P>(h: Digest<P>, rs: seq<Record<P>>, n: nat)
    requires n <= |rs|
    ensures Intact(h, rs[..n]) <==> forall i :: 0 <= i < n ==> LinkOk(h, rs, i)
  {
    assert forall i :: 0 <= i < n ==> LinkOk(h, rs[..n], i) == LinkOk(h, rs, i);
  }

  datatype Verdict = ChainOk(count: nat) | BrokenAt(seqNo: int, count: nat)

  /** Re-walks a chain. It reports success exactly for intact chains, and otherwise the sequence
      number of the first row at which the walked prefix stops being intact. */
  method VerifyChain<P>(h: Digest<P>, rs: seq<Record<P>>) returns (v: Verdict)
    ensures v.ChainOk? <==> Intact(h, rs)
    ensures v.ChainOk? ==> v.count == |rs|
    ensures v.BrokenAt? ==> && 1 <= v.count <= |rs|
                            && v.seqNo == rs[v.count - 1].seqNo
                            && Intact(h, rs[..v.count - 1])
                            && !Intact(h, rs[..v.count])
  {
    var prev := GENESIS;
    var expected := None;
    var count := 0;
    while count < |rs|
      invariant 0 <= count <= |rs|
      invariant prev == if count == 0 then GENESIS else rs[count - 1].entryHash
      invariant expected == if count == 0 then None else Some(rs[count - 1].seqNo + 1)
      invariant forall i :: 0 <= i < count ==> LinkOk(h, rs, i)
    {
      var r := rs[count];
      count := count + 1;
      if (expected.Some? && r.seqNo != expected.value)
         || r.prevHash != prev
         || h(r.seqNo, r.payload, r.prevHash) != r.entryHash
      {
        assert !LinkOk(h, rs, count - 1);
        assert !LinkOk(h, rs[..count], count - 1);
        PrefixLinks(h, rs, count - 1);
        return BrokenAt(r.seqNo, count);
      }
      prev := r.entryHash;
      expected := Some(r.seqNo + 1);
    }
    return ChainOk(count);
  }
}
