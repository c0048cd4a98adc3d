/**
 The persisted block list and its guarded, insert-if-absent update
 (utils/ip_blocker.py). The store is what a read of the block file finds:
 no file, a readable list of records, or a file that cannot be read. Writing
 the file back is an outcome supplied by the caller.
 */
module IpBlocker {
  import opened Results
  import opened LogParser

  /** Scores strictly above this trigger a block. */
  const BlockThreshold: int := 70
  const HighRiskReason: string := "High risk login detected"

  datatype BlockRecord = BlockRecord(ipAddress: string, blockedAt: Timestamp, reason: string)

  datatype Store = Missing | Stored(records: seq<BlockRecord>) | Unreadable

  /** What writing the updated list back produces. */
  datatype WriteOutcome = Written | PermissionDenied | WriteFailed

  /** The errors that escape the update: a read failure other than a missing file, or a write failure other than a denied permission. */
  datatype StoreError = ReadFailed | WriteError

  /** Whether one particular read of the file goes through (a lock held by another program, say, makes it fail). */
  datatype ReadOutcome = ReadOk | ReadFails

  /** What one read of the file finds: the file as it stands, or an unreadable file when that read fails. */
  function ReadAs(store: Store, read: ReadOutcome): (view: Store)
    ensures read == ReadOk ==> view == store
    ensures read == ReadFails ==> view.Unreadable?
  {
    if read == ReadOk then store else Unreadable
  }

  /** The list a read yields; a missing file reads as the empty list. */
  function Records(store: Store): seq<BlockRecord> {
    if store.Stored? then store.records else []
  }

  ghost predicate ListsIp(rs: seq<BlockRecord>, ip: string) {
    exists i :: 0 <= i < |rs| && rs[i].ipAddress == ip
  }

  /** No address has two records. */
  ghost predicate UniqueIps(rs: seq<BlockRecord>) {
    forall i, j :: 0 <= i < j < |rs| ==> rs[i].ipAddress != rs[j].ipAddress
  }

  /** Membership test on the address column, scanning front to back. */
  function InColumn(rs: seq<BlockRecord>, ip: string): (b: bool)
    ensures b <==> ListsIp(rs, ip)
  {
    if |rs| == 0 then false
    else if rs[0].ipAddress == ip then true
    else
      var rest := InColumn(rs[1..], ip);
      assert ListsIp(rs[1..], ip) ==> ListsIp(rs, ip) by {
        if ListsIp(rs[1..], ip) {
          var k :| 0 <= k < |rs[1..]| && rs[1..][k].ipAddress == ip;
          assert rs[k + 1].ipAddress == ip;
        }
      }
      assert ListsIp(rs, ip) ==> ListsIp(rs[1..], ip) by {
        if ListsIp(rs, ip) {
          var k :| 0 <= k < |rs| && rs[k].ipAddress == ip;
          assert k != 0;
          assert rs[1..][k - 1].ipAddress == ip;
        }
      }
      rest
  }

  /**
   Blocks an address when the score exceeds 70 and the address is not yet listed.
   At most one record is added, at the end, carrying the address, the given time
   and the fixed reason; the existing records are kept in order. Scores of 70 or
   less, an address already listed and a denied write all leave the store as it
   was; an unreadable file or a failed write is an error.
   */
  function BlockIpIfNeeded(store: Store, ip: string, riskScore: int, now: Timestamp, w: WriteOutcome)
    : (r: Result<Store, StoreError>)
    ensures riskScore <= BlockThreshold ==> r == Ok(store)
    ensures r.Err? <==> (riskScore > BlockThreshold
                         && (store.Unreadable? || (!ListsIp(Records(store), ip) && w == WriteFailed)))
    ensures r.Err? ==> (r.error == ReadFailed <==> store.Unreadable?)
    ensures r.Ok? && w != Written ==> r == Ok(store)
    ensures r.Ok? && r.value != store ==>
              r.value == Stored(Records(store) + [BlockRecord(ip, now, HighRiskReason)])
    ensures r.Ok? && riskScore > BlockThreshold && w == Written ==> ListsIp(Records(r.value), ip)
    ensures ListsIp(Records(store), ip) && !store.Unreadable? ==> r == Ok(store)
  {
    if riskScore <= BlockThreshold then Ok(store)
    else if store.Unreadable? then Err(ReadFailed)
    else
      var blocked := Records(store);
      if InColumn(blocked, ip) then Ok(store)
      else
        var updated := blocked + [BlockRecord(ip, now, HighRiskReason)];
        assert updated[|blocked|].ipAddress == ip;
        match w
        case Written => Ok(Stored(updated))
        case PermissionDenied => Ok(store)
        case WriteFailed => Err(WriteError)
  }

  /** A second identical request changes nothing once the first one has written its record. */
  lemma BlockIdempotent(store: Store, ip: string, riskScore: int, now: Timestamp, later: Timestamp, w: WriteOutcome)
    requires BlockIpIfNeeded(store, ip, riskScore, now, Written).Ok?
    ensures var s1 := BlockIpIfNeeded(store, ip, riskScore, now, Written).value;
            BlockIpIfNeeded(s1, ip, riskScore, later, w) == Ok(s1)
  {
    var s1 := BlockIpIfNeeded(store, ip, riskScore, now, Written).value;
    if riskScore > BlockThreshold {
      assert ListsIp(Records(s1), ip);
    }
  }

  /** The old list is a prefix of the new one, and the new one is at most one record longer. */
  lemma BlockKeepsPrefix(store: Store, ip: string, riskScore: int, now: Timestamp, w: WriteOutcome)
    requires BlockIpIfNeeded(store, ip, riskScore, now, w).Ok?
    ensures var s1 := BlockIpIfNeeded(store, ip, riskScore, now, w).value;
            Records(store) <= Records(s1) && |Records(s1)| <= |Records(store)| + 1
  {
  }

  /** Every other address is listed afterwards exactly when it was listed before. */
  lemma BlockTouchesOnlyItsIp(store: Store, ip: string, riskScore: int, now: Timestamp, w: WriteOutcome, other: string)
    requires BlockIpIfNeeded(store, ip, riskScore, now, w).Ok?
    requires other != ip
    ensures var s1 := BlockIpIfNeeded(store, ip, riskScore, now, w).value;
            ListsIp(Records(s1), other) <==> ListsIp(Records(store), other)
  {
    var s1 := BlockIpIfNeeded(store, ip, riskScore, now, w).value;
    var rs := Records(store);
    if s1 != store {
      assert Records(s1) == rs + [BlockRecord(ip, now, HighRiskReason)];
      if ListsIp(rs, other) {
        var k :| 0 <= k < |rs| && rs[k].ipAddress == other;
        assert Records(s1)[k].ipAddress == other;
      }
      if ListsIp(Records(s1), other) {
        var k :| 0 <= k < |Records(s1)| && Records(s1)[k].ipAddress == other;
        assert k < |rs|;
        assert rs[k].ipAddress == other;
      }
    }
  }

  /** A list without duplicate addresses keeps that property. */
  lemma BlockPreservesUniqueIps(store: Store, ip: string, riskScore: int, now: Timestamp, w: WriteOutcome)
    requires UniqueIps(Records(store))
    requires BlockIpIfNeeded(store, ip, riskScore, now, w).Ok?
    ensures UniqueIps(Records(BlockIpIfNeeded(store, ip, riskScore, now, w).value))
  {
    var s1 := BlockIpIfNeeded(store, ip, riskScore, now, w).value;
    var rs := Records(store);
    if s1 != store {
      var ns := Records(s1);
      assert ns == rs + [BlockRecord(ip, now, HighRiskReason)];
      assert !ListsIp(rs, ip);
      forall i, j | 0 <= i < j < |ns|
        ensures ns[i].ipAddress != ns[j].ipAddress
      {
        if j == |rs| {
          assert ns[i] == rs[i];
        } else {
          assert ns[i] == rs[i] && ns[j] == rs[j];
        }
      }
    }
  }
}
