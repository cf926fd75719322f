/** The reliability manager (src/common/reliability_manager.cpp) on an integer clock in
    milliseconds. Every method of the class is proved equal to a function on values. */
module Reliability {
  import opened Pieces
  import opened Wire
  import opened Codec

  datatype Role = BASE_STATION | ROVER

  datatype SentInfo = SentInfo(packet: Packet, sentTime: int, retryCount: nat, recipient: Endpoint)

  datatype State = State(role: Role,
                         running: bool,
                         sent: map<uint8, SentInfo>,
                         received: map<Endpoint, map<uint8, int>>,
                         naks: map<uint8, int>,
                         acked: map<Endpoint, set<uint8>>,
                         lastAckCleanup: int)

  // ---------------------------------------------------------------- ordered keys

  function LeastFrom(s: set<uint8>, i: uint8): (m: uint8)
    requires exists x :: x in s && i <= x
    ensures m in s && forall x :: x in s && i <= x ==> m <= x
    decreases 256 - i
  {
    if i in s then i else LeastFrom(s, i + 1)
  }

  function Least(s: set<uint8>): (m: uint8)
    requires s != {}
    ensures m in s && forall x :: x in s ==> m <= x
  {
    assert exists x :: x in s && 0 <= x;
    LeastFrom(s, 0)
  }

  function GreatestUpTo(s: set<uint8>, i: uint8): (m: uint8)
    requires exists x :: x in s && x <= i
    ensures m in s && forall x :: x in s && x <= i ==> x <= m
  {
    if i in s then i else GreatestUpTo(s, i - 1)
  }

  function Greatest(s: set<uint8>): (m: uint8)
    requires s != {}
    ensures m in s && forall x :: x in s ==> x <= m
  {
    assert exists x :: x in s && x <= 255;
    GreatestUpTo(s, 255)
  }

  /** The elements in ascending order, the order in which a map is traversed. */
  function Sorted(s: set<uint8>): (r: seq<uint8>)
    ensures forall x :: x in r <==> x in s
    decreases |s|
  {
    if s == {} then [] else [Least(s)] + Sorted(s - {Least(s)})
  }

  ghost predicate Ascending(s: seq<uint8>) {
    forall i, j :: 0 <= i < j < |s| ==> s[i] < s[j]
  }

  lemma AscendingCons(m: uint8, rest: seq<uint8>)
    requires Ascending(rest) && forall j :: 0 <= j < |rest| ==> m < rest[j]
    ensures Ascending([m] + rest)
  {
  }

  lemma LeastIsLess(s: set<uint8>, x: uint8)
    requires x in s && x != Least(s)
    ensures Least(s) < x
  {
  }

  lemma RestIsGreater(s: set<uint8>, m: uint8, rest: seq<uint8>)
    requires s != {} && m == Least(s) && forall x :: x in rest <==> x in s - {m}
    ensures forall j :: 0 <= j < |rest| ==> m < rest[j]
  {
    forall j | 0 <= j < |rest| ensures m < rest[j] {
      assert rest[j] in rest;
      LeastIsLess(s, rest[j]);
    }
  }

  lemma {:induction false} SortedAscends(s: set<uint8>)
    ensures Ascending(Sorted(s))
    decreases |s|
  {
    if s != {} {
      var m := Least(s);
      SortedAscends(s - {m});
      RestIsGreater(s, m, Sorted(s - {m}));
      AscendingCons(m, Sorted(s - {m}));
    }
  }

  // ---------------------------------------------------------------- tracking

  function Start(s: State, now: int): State {
    if s.running then s
    else Cleanup(State(s.role, true, map[], map[], map[], map[], s.lastAckCleanup), now)
  }

  function Stop(s: State): State {
    s.(running := false)
  }

  /** An entry that exists is never overwritten. */
  function AddSend(s: State, seqNo: uint8, packet: Packet, recipient: Endpoint, now: int): State {
    if !s.running || seqNo in s.sent then s
    else s.(sent := s.sent[seqNo := SentInfo(packet, now, 0, recipient)])
  }

  function ProcessAck(s: State, seqNo: uint8): State {
    if !s.running || s.role != ROVER then s else s.(sent := s.sent - {seqNo})
  }

  /** The packet that a NAK makes the base send again, and to whom. */
  function NakAnswer(s: State, seqNo: uint8): Option<(Packet, Endpoint)> {
    if !s.running || s.role != BASE_STATION || seqNo !in s.sent then None
    else Some((s.sent[seqNo].packet, s.sent[seqNo].recipient))
  }

  function Reset(s: State): State {
    s.(sent := map[], received := map[], naks := map[], acked := map[])
  }

  // ---------------------------------------------------------------- timeouts

  function Pow2(n: nat): (p: nat)
    ensures p >= 1
  {
    if n == 0 then 1 else 2 * Pow2(n - 1)
  }

  function Timeout(retryCount: nat): nat {
    BASE_TIMEOUT * Pow2(retryCount)
  }

  predicate Expired(info: SentInfo, now: int) {
    now - info.sentTime > Timeout(info.retryCount)
  }

  predicate Due(info: SentInfo, now: int) {
    Expired(info, now) && info.retryCount < MAX_RETRIES
  }

  predicate GivenUp(info: SentInfo, now: int) {
    Expired(info, now) && info.retryCount >= MAX_RETRIES
  }

  function Bumped(info: SentInfo, now: int): SentInfo {
    if Due(info, now) then info.(sentTime := now, retryCount := info.retryCount + 1) else info
  }

  /** What a check keeps: unexpired entries as they are, expired ones under the retry limit
      with their clock restarted. */
  function Kept(sent: map<uint8, SentInfo>, now: int): map<uint8, SentInfo> {
    map k | k in sent && !GivenUp(sent[k], now) :: Bumped(sent[k], now)
  }

  predicate Reported(info: SentInfo, now: int) {
    GivenUp(info, now) && info.recipient.port == BASE_PORT
  }

  function ResentOne(info: SentInfo, now: int): seq<(Packet, Endpoint)> {
    if Due(info, now) then [(info.packet, info.recipient)] else []
  }

  function NoticeOne(info: SentInfo, now: int): seq<Endpoint> {
    if Reported(info, now) then [info.recipient] else []
  }

  function Resent(sent: map<uint8, SentInfo>, keys: seq<uint8>, now: int): seq<(Packet, Endpoint)>
    requires forall i :: 0 <= i < |keys| ==> keys[i] in sent
  {
    if keys == [] then [] else ResentOne(sent[keys[0]], now) + Resent(sent, keys[1..], now)
  }

  function Notices(sent: map<uint8, SentInfo>, keys: seq<uint8>, now: int): seq<Endpoint>
    requires forall i :: 0 <= i < |keys| ==> keys[i] in sent
  {
    if keys == [] then [] else NoticeOne(sent[keys[0]], now) + Notices(sent, keys[1..], now)
  }

  datatype Check = Check(state: State, resend: seq<(Packet, Endpoint)>, notify: seq<Endpoint>)

  /** One pass over the tracked packets, in ascending order of their numbers. */
  function RetransmitCheck(s: State, now: int): Check {
    if s.role == BASE_STATION then Check(s, [], [])
    else Check(s.(sent := Kept(s.sent, now)),
               Resent(s.sent, Sorted(s.sent.Keys), now),
               Notices(s.sent, Sorted(s.sent.Keys), now))
  }

  /** The periodic handler. */
  function RetransmitTimer(s: State, now: int): Check {
    if !s.running then Check(s, [], []) else RetransmitCheck(s, now)
  }

  // ---------------------------------------------------------------- received numbers

  function ReceivedFrom(s: State, sender: Endpoint): map<uint8, int> {
    if sender in s.received then s.received[sender] else map[]
  }

  function RecordReceived(s: State, seqNo: uint8, sender: Endpoint, now: int): State {
    if !s.running then s
    else s.(received := s.received[sender := ReceivedFrom(s, sender)[seqNo := now]])
  }

  /** Subtraction of 1 on an 8-bit number. */
  function Previous(h: uint8): uint8 {
    if h == 0 then 255 else h - 1
  }

  /** The `n` numbers before `h`, nearest first, counting modulo 256. */
  function Before(h: uint8, n: nat): (r: seq<uint8>)
    ensures |r| == n
    decreases n, h
  {
    if n == 0 then [] else [Previous(h)] + Before(Previous(h), n - 1)
  }

  function Unseen(seen: map<uint8, int>, window: seq<uint8>): seq<uint8> {
    if window == [] then []
    else (if window[0] !in seen then [window[0]] else []) + Unseen(seen, window[1..])
  }

  function Missing(s: State, sender: Endpoint): seq<uint8> {
    var seen := ReceivedFrom(s, sender);
    if s.role != ROVER || seen == map[] then []
    else Unseen(seen, Before(Greatest(seen.Keys), WINDOW_SIZE))
  }

  // ---------------------------------------------------------------- NAK debounce

  predicate RecentlyNaked(s: State, seqNo: uint8, now: int) {
    seqNo in s.naks && now - s.naks[seqNo] < NAK_DEBOUNCE_TIME
  }

  function RecordNak(s: State, seqNo: uint8, now: int): State {
    s.(naks := s.naks[seqNo := now])
  }

  // ---------------------------------------------------------------- acknowledgements

  predicate HasAcked(s: State, seqNo: uint8, endpoint: Endpoint) {
    s.role == BASE_STATION && endpoint in s.acked && seqNo in s.acked[endpoint]
  }

  function RecordAcked(s: State, seqNo: uint8, endpoint: Endpoint): State {
    if s.role != BASE_STATION then s
    else s.(acked := s.acked[endpoint := (if endpoint in s.acked then s.acked[endpoint] else {}) + {seqNo}])
  }

  // ---------------------------------------------------------------- cleanup

  /** The entries no older than `limit`. */
  function Young(m: map<uint8, int>, now: int, limit: int): map<uint8, int> {
    map k | k in m && now - m[k] <= limit :: m[k]
  }

  predicate AckEpochEnds(s: State, now: int) {
    now > s.lastAckCleanup + 2 * CLEANUP_INTERVAL
  }

  function Cleanup(s: State, now: int): State {
    s.(received := map e | e in s.received :: Young(s.received[e], now, SEQUENCE_RETAIN_TIME),
       naks := Young(s.naks, now, 2 * NAK_DEBOUNCE_TIME),
       acked := if AckEpochEnds(s, now) then map[] else s.acked,
       lastAckCleanup := if AckEpochEnds(s, now) then now else s.lastAckCleanup)
  }

  function CleanupTimer(s: State, now: int): State {
    if !s.running then s else Cleanup(s, now)
  }

  // ---------------------------------------------------------------- the manager

  /** Removes the entries older than `limit` while iterating. */
  method Prune(m: map<uint8, int>, now: int, limit: int) returns (r: map<uint8, int>)
    ensures r == Young(m, now, limit)
  {
    r := m;
    var pending := m.Keys;
    while pending != {}
      invariant pending <= m.Keys
      invariant r.Keys == pending + Young(m, now, limit).Keys
      invariant forall k :: k in r ==> r[k] == m[k]
      decreases |pending|
    {
      var k := Least(pending);
      pending := pending - {k};
      if now - r[k] > limit {
        r := r - {k};
      }
    }
  }

  method PruneAll(m: map<Endpoint, map<uint8, int>>, now: int, limit: int) returns (r: map<Endpoint, map<uint8, int>>)
    ensures r == map e | e in m :: Young(m[e], now, limit)
  {
    r := m;
    var pending := m.Keys;
    while pending != {}
      invariant pending <= m.Keys && r.Keys == m.Keys
      invariant forall e :: e in m ==> r[e] == if e in pending then m[e] else Young(m[e], now, limit)
      decreases |pending|
    {
      var e :| e in pending;
      pending := pending - {e};
      var kept := Prune(r[e], now, limit);
      r := r[e := kept];
    }
  }

  /** The table when the entries in `pending` are still to be visited. */
  function Swept(was: map<uint8, SentInfo>, pending: set<uint8>, now: int): map<uint8, SentInfo> {
    map k | k in was && (k in pending || !GivenUp(was[k], now))
      :: if k in pending then was[k] else Bumped(was[k], now)
  }

  lemma SweptVisit(was: map<uint8, SentInfo>, pending: set<uint8>, k: uint8, now: int)
    requires k in pending && k in was
    ensures var t, rest := Swept(was, pending, now), Swept(was, pending - {k}, now);
            && k in t && t[k] == was[k]
            && (GivenUp(was[k], now) ==> rest == t - {k})
            && (!GivenUp(was[k], now) ==> rest == t[k := Bumped(was[k], now)])
  {
  }

  lemma SweptEnds(was: map<uint8, SentInfo>, now: int)
    ensures Swept(was, was.Keys, now) == was && Swept(was, {}, now) == Kept(was, now)
  {
  }

  lemma ListsVisit(was: map<uint8, SentInfo>, pending: set<uint8>, now: int)
    requires pending != {} && pending <= was.Keys
    ensures var k := Least(pending);
            var rest := Sorted(pending - {k});
            && Resent(was, Sorted(pending), now) == ResentOne(was[k], now) + Resent(was, rest, now)
            && Notices(was, Sorted(pending), now) == NoticeOne(was[k], now) + Notices(was, rest, now)
  {
  }

  /** One tracked packet: what becomes of its entry, and what is sent or reported. */
  method Visit(info: SentInfo, now: int)
    returns (kept: Option<SentInfo>, resend: seq<(Packet, Endpoint)>, notify: seq<Endpoint>)
    ensures kept == if GivenUp(info, now) then None else Some(Bumped(info, now))
    ensures resend == ResentOne(info, now) && notify == NoticeOne(info, now)
  {
    kept, resend, notify := Some(info), [], [];
    if now - info.sentTime > Timeout(info.retryCount) {
      if info.retryCount >= MAX_RETRIES {
        if info.recipient.port == BASE_PORT {
          notify := [info.recipient];
        }
        kept := None;
      } else {
        resend := [(info.packet, info.recipient)];
        kept := Some(info.(sentTime := now, retryCount := info.retryCount + 1));
      }
    }
  }

  /** The traversal of the tracked packets, erasing entries while it iterates. */
  method Sweep(was: map<uint8, SentInfo>, now: int)
    returns (sent: map<uint8, SentInfo>, resend: seq<(Packet, Endpoint)>, notify: seq<Endpoint>)
    ensures sent == Kept(was, now)
    ensures resend == Resent(was, Sorted(was.Keys), now)
    ensures notify == Notices(was, Sorted(was.Keys), now)
  {
    sent, resend, notify := was, [], [];
    ghost var toResend, toNotify := Resent(was, Sorted(was.Keys), now), Notices(was, Sorted(was.Keys), now);
    var pending := was.Keys;
    SweptEnds(was, now);
    while pending != {}
      invariant pending <= was.Keys && sent == Swept(was, pending, now)
      invariant resend + Resent(was, Sorted(pending), now) == toResend
      invariant notify + Notices(was, Sorted(pending), now) == toNotify
      decreases |pending|
    {
      var k := Least(pending);
      SweptVisit(was, pending, k, now);
      ListsVisit(was, pending, now);
      var kept, resendOne, notifyOne := Visit(sent[k], now);
      pending := pending - {k};
      Associate(resend, resendOne, Resent(was, Sorted(pending), now));
      Associate(notify, notifyOne, Notices(was, Sorted(pending), now));
      resend, notify := resend + resendOne, notify + notifyOne;
      sent := if kept.None? then sent - {k} else sent[k := kept.value];
    }
  }

  lemma UnseenStep(seen: map<uint8, int>, h: uint8, n: nat)
    requires n > 0
    ensures var c := Previous(h);
            Unseen(seen, Before(h, n)) == (if c !in seen then [c] else []) + Unseen(seen, Before(c, n - 1))
  {
  }

  /** Walks back over the window below `highest`. */
  method ScanWindow(seen: map<uint8, int>, highest: uint8) returns (missing: seq<uint8>)
    ensures missing == Unseen(seen, Before(highest, WINDOW_SIZE))
  {
    missing := [];
    var candidate := highest;
    ghost var goal := Unseen(seen, Before(highest, WINDOW_SIZE));
    ghost var left := goal;
    for i := 0 to WINDOW_SIZE
      invariant left == Unseen(seen, Before(candidate, WINDOW_SIZE - i)) && missing + left == goal
    {
      UnseenStep(seen, candidate, WINDOW_SIZE - i);
      candidate := Previous(candidate);
      left := Unseen(seen, Before(candidate, WINDOW_SIZE - i - 1));
      var one := if candidate !in seen then [candidate] else [];
      Associate(missing, one, left);
      missing := missing + one;
    }
    AllScanned(seen, candidate, missing, left);
  }

  lemma AllScanned(seen: map<uint8, int>, h: uint8, missing: seq<uint8>, left: seq<uint8>)
    requires left == Unseen(seen, Before(h, 0))
    ensures missing + left == missing
  {
  }

  class ReliabilityManager {
    const role: Role
    var running: bool
    var sent: map<uint8, SentInfo>
    var received: map<Endpoint, map<uint8, int>>
    var naks: map<uint8, int>
    var acked: map<Endpoint, set<uint8>>
    var lastAckCleanup: int

    function View(): State
      reads this
    {
      State(role, running, sent, received, naks, acked, lastAckCleanup)
    }

    constructor (isBaseStation: bool)
      ensures View() == State(if isBaseStation then BASE_STATION else ROVER, false, map[], map[], map[], map[], 0)
    {
      role := if isBaseStation then BASE_STATION else ROVER;
      running, sent, received, naks, acked, lastAckCleanup := false, map[], map[], map[], map[], 0;
    }

    method AddSendPacket(seqNo: uint8, packet: Packet, recipient: Endpoint, now: int)
      modifies this
      ensures View() == AddSend(old(View()), seqNo, packet, recipient, now)
    {
      if !running {
        return;
      }
      if seqNo !in sent {
        sent := sent[seqNo := SentInfo(packet, now, 0, recipient)];
      }
    }

    method ProcessAckFor(seqNo: uint8)
      modifies this
      ensures View() == ProcessAck(old(View()), seqNo)
    {
      if !running || role != ROVER {
        return;
      }
      if seqNo in sent {
        sent := sent - {seqNo};
      } else {
        assert sent - {seqNo} == sent;
      }
    }

    method ProcessNakFor(seqNo: uint8) returns (again: Option<(Packet, Endpoint)>)
      ensures again == NakAnswer(View(), seqNo)
    {
      if !running || role != BASE_STATION || seqNo !in sent {
        return None;
      }
      return Some((sent[seqNo].packet, sent[seqNo].recipient));
    }

    method RecordReceivedSequence(seqNo: uint8, sender: Endpoint, now: int)
      modifies this
      ensures View() == RecordReceived(old(View()), seqNo, sender, now)
    {
      if !running {
        return;
      }
      var seen := if sender in received then received[sender] else map[];
      received := received[sender := seen[seqNo := now]];
    }

    method GetMissingSequences(sender: Endpoint) returns (missing: seq<uint8>)
      ensures missing == Missing(View(), sender)
    {
      missing := [];
      if role != ROVER || sender !in received || received[sender] == map[] {
        return;
      }
      missing := ScanWindow(received[sender], Greatest(received[sender].Keys));
    }

    method RecordNakSent(seqNo: uint8, now: int)
      modifies this
      ensures View() == RecordNak(old(View()), seqNo, now)
    {
      naks := naks[seqNo := now];
    }

    method RecordAckedSequence(seqNo: uint8, endpoint: Endpoint)
      modifies this
      ensures View() == RecordAcked(old(View()), seqNo, endpoint)
    {
      if role != BASE_STATION {
        return;
      }
      var known := if endpoint in acked then acked[endpoint] else {};
      acked := acked[endpoint := known + {seqNo}];
    }

    /** The base never expires an entry; the rover's traversal is the one-pass check. */
    method GetPacketsToRetransmit(now: int)
      returns (resend: seq<(Packet, Endpoint)>, notify: seq<Endpoint>)
      modifies this
      ensures Check(View(), resend, notify) == RetransmitCheck(old(View()), now)
    {
      resend, notify := [], [];
      if role == ROVER {
        sent, resend, notify := Sweep(sent, now);
      }
    }

    method CleanupOldEntries(now: int)
      modifies this
      ensures View() == Cleanup(old(View()), now)
    {
      received := PruneAll(received, now, SEQUENCE_RETAIN_TIME);
      naks := Prune(naks, now, 2 * NAK_DEBOUNCE_TIME);
      if now > lastAckCleanup + 2 * CLEANUP_INTERVAL {
        acked := map[];
        lastAckCleanup := now;
      }
    }

    method ResetState()
      modifies this
      ensures View() == Reset(old(View()))
    {
      sent, received, naks, acked := map[], map[], map[], map[];
    }

    method StopManager()
      modifies this
      ensures View() == Stop(old(View()))
    {
      if !running {
        return;
      }
      running := false;
    }

    method StartManager(now: int)
      modifies this
      ensures View() == Start(old(View()), now)
    {
      if running {
        return;
      }
      running := true;
      sent, received, naks, acked := map[], map[], map[], map[];
      CleanupOldEntries(now);
    }
  }
}
