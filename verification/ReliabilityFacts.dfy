/** What single operations of the reliability manager compute, said without their code. */
module ReliabilityFacts {
  import opened Wire
  import opened Reliability

  // ---------------------------------------------------------------- gap detection

  /** How far `x` lies behind `h`, counting modulo 256. */
  function Distance(h: uint8, x: uint8): (d: nat)
    ensures d < 256
  {
    if x <= h then h - x else h - x + 256
  }

  ghost predicate Nearest(h: uint8, s: seq<uint8>) {
    forall i, j :: 0 <= i < j < |s| ==> Distance(h, s[i]) < Distance(h, s[j])
  }

  lemma PreviousIsFarther(h: uint8, c: uint8)
    requires Distance(h, c) < 255
    ensures Distance(h, Previous(c)) == Distance(h, c) + 1
    ensures forall x: uint8 :: Distance(h, x) == Distance(h, c) + 1 ==> x == Previous(c)
  {
  }

  ghost predicate InWindow(seen: map<uint8, int>, h: uint8, d: nat, n: nat, x: uint8) {
    d < Distance(h, x) <= d + n && x !in seen
  }

  lemma {:induction false} WindowMembers(seen: map<uint8, int>, h: uint8, c: uint8, n: nat)
    requires Distance(h, c) + n < 256
    ensures forall x :: x in Unseen(seen, Before(c, n)) <==> InWindow(seen, h, Distance(h, c), n, x)
    decreases n
  {
    if n > 0 {
      UnseenStep(seen, c, n);
      PreviousIsFarther(h, c);
      WindowMembers(seen, h, Previous(c), n - 1);
    }
  }

  lemma RestIsFarther(seen: map<uint8, int>, h: uint8, p: uint8, n: nat)
    requires Distance(h, p) + n < 256
    ensures var rest := Unseen(seen, Before(p, n));
            forall j :: 0 <= j < |rest| ==> Distance(h, p) < Distance(h, rest[j])
  {
    WindowMembers(seen, h, p, n);
    var rest := Unseen(seen, Before(p, n));
    forall j | 0 <= j < |rest| ensures Distance(h, p) < Distance(h, rest[j]) {
      assert rest[j] in rest && InWindow(seen, h, Distance(h, p), n, rest[j]);
    }
  }

  lemma {:induction false} WindowNearest(seen: map<uint8, int>, h: uint8, c: uint8, n: nat)
    requires Distance(h, c) + n < 256
    ensures Nearest(h, Unseen(seen, Before(c, n)))
    decreases n
  {
    if n > 0 {
      var p := Previous(c);
      PreviousIsFarther(h, c);
      WindowNearest(seen, h, p, n - 1);
      RestIsFarther(seen, h, p, n - 1);
      UnseenStep(seen, c, n);
      var rest := Unseen(seen, Before(p, n - 1));
      NearestCons(h, p, rest);
      assert [] + rest == rest;
    }
  }

  lemma NearestCons(h: uint8, p: uint8, rest: seq<uint8>)
    requires Nearest(h, rest) && forall j :: 0 <= j < |rest| ==> Distance(h, p) < Distance(h, rest[j])
    ensures Nearest(h, [p] + rest)
  {
  }

  /** The numbers reported missing are exactly the unrecorded ones among the sixteen before
      the largest recorded number, nearest first, each once. */
  lemma MissingExact(s: State, sender: Endpoint)
    requires s.role == ROVER && ReceivedFrom(s, sender) != map[]
    ensures var seen := ReceivedFrom(s, sender);
            var h := Greatest(seen.Keys);
            && Nearest(h, Missing(s, sender))
            && forall x :: x in Missing(s, sender) <==> 1 <= Distance(h, x) <= 16 && x !in seen
  {
    var seen := ReceivedFrom(s, sender);
    var h := Greatest(seen.Keys);
    WindowNearest(seen, h, h, WINDOW_SIZE);
    WindowMembers(seen, h, h, WINDOW_SIZE);
  }

  // ---------------------------------------------------------------- order of retransmission

  function DueKeys(sent: map<uint8, SentInfo>, keys: seq<uint8>, now: int): (r: seq<uint8>)
    requires forall i :: 0 <= i < |keys| ==> keys[i] in sent
    ensures forall k :: k in r <==> k in keys && Due(sent[k], now)
  {
    if keys == [] then []
    else (if Due(sent[keys[0]], now) then [keys[0]] else []) + DueKeys(sent, keys[1..], now)
  }

  lemma {:induction false} DueKeysAscend(sent: map<uint8, SentInfo>, keys: seq<uint8>, now: int)
    requires forall i :: 0 <= i < |keys| ==> keys[i] in sent
    requires Ascending(keys)
    ensures Ascending(DueKeys(sent, keys, now))
  {
    if keys != [] {
      DueKeysAscend(sent, keys[1..], now);
      var rest := DueKeys(sent, keys[1..], now);
      forall j | 0 <= j < |rest| ensures keys[0] < rest[j] {
        assert rest[j] in keys[1..];
      }
      AscendingCons(keys[0], rest);
    }
  }

  lemma {:induction false} ResentIsDue(sent: map<uint8, SentInfo>, keys: seq<uint8>, now: int)
    requires forall i :: 0 <= i < |keys| ==> keys[i] in sent
    ensures var due := DueKeys(sent, keys, now);
            && |Resent(sent, keys, now)| == |due|
            && forall i :: 0 <= i < |due| ==>
                 due[i] in sent && Resent(sent, keys, now)[i] == (sent[due[i]].packet, sent[due[i]].recipient)
  {
    if keys != [] {
      ResentIsDue(sent, keys[1..], now);
      var due, pairs := DueKeys(sent, keys[1..], now), Resent(sent, keys[1..], now);
      if Due(sent[keys[0]], now) {
        assert DueKeys(sent, keys, now)[1..] == due;
        assert Resent(sent, keys, now)[1..] == pairs;
      } else {
        assert DueKeys(sent, keys, now) == due;
        assert Resent(sent, keys, now) == pairs;
      }
    }
  }

  /** A check returns exactly the expired packets under the retry limit, in ascending order
      of their numbers, each with the recipient it was first sent to. */
  lemma ResendExact(s: State, now: int)
    requires s.role == ROVER
    ensures var due := DueKeys(s.sent, Sorted(s.sent.Keys), now);
            var resend := RetransmitCheck(s, now).resend;
            && Ascending(due) && (forall k :: k in due <==> k in s.sent && Due(s.sent[k], now))
            && |resend| == |due|
            && forall i :: 0 <= i < |due| ==>
                 due[i] in s.sent && resend[i] == (s.sent[due[i]].packet, s.sent[due[i]].recipient)
  {
    var keys := Sorted(s.sent.Keys);
    SortedAscends(s.sent.Keys);
    DueKeysAscend(s.sent, keys, now);
    ResentIsDue(s.sent, keys, now);
  }

  // ---------------------------------------------------------------- notifications

  function ReportedKeys(sent: map<uint8, SentInfo>, keys: seq<uint8>, now: int): (r: seq<uint8>)
    requires forall i :: 0 <= i < |keys| ==> keys[i] in sent
    ensures forall k :: k in r <==> k in keys && Reported(sent[k], now)
  {
    if keys == [] then []
    else (if Reported(sent[keys[0]], now) then [keys[0]] else []) + ReportedKeys(sent, keys[1..], now)
  }

  lemma {:induction false} ReportedKeysAscend(sent: map<uint8, SentInfo>, keys: seq<uint8>, now: int)
    requires forall i :: 0 <= i < |keys| ==> keys[i] in sent
    requires Ascending(keys)
    ensures Ascending(ReportedKeys(sent, keys, now))
  {
    if keys != [] {
      ReportedKeysAscend(sent, keys[1..], now);
      var rest := ReportedKeys(sent, keys[1..], now);
      forall j | 0 <= j < |rest| ensures keys[0] < rest[j] {
        assert rest[j] in keys[1..];
      }
      AscendingCons(keys[0], rest);
    }
  }

  lemma {:induction false} NoticesAreReported(sent: map<uint8, SentInfo>, keys: seq<uint8>, now: int)
    requires forall i :: 0 <= i < |keys| ==> keys[i] in sent
    ensures var r := ReportedKeys(sent, keys, now);
            && |Notices(sent, keys, now)| == |r|
            && forall i :: 0 <= i < |r| ==> r[i] in sent && Notices(sent, keys, now)[i] == sent[r[i]].recipient
  {
    if keys != [] {
      NoticesAreReported(sent, keys[1..], now);
      var rest, notes := ReportedKeys(sent, keys[1..], now), Notices(sent, keys[1..], now);
      if Reported(sent[keys[0]], now) {
        assert ReportedKeys(sent, keys, now)[1..] == rest;
        assert Notices(sent, keys, now)[1..] == notes;
      } else {
        assert ReportedKeys(sent, keys, now) == rest;
        assert Notices(sent, keys, now) == notes;
      }
    }
  }

  /** A check notifies once for each packet it gives up, resent twice and now over its timeout,
      that was bound for port 9000, and for no other. */
  lemma NotifyExact(s: State, now: int)
    requires s.role == ROVER
    ensures var keys := ReportedKeys(s.sent, Sorted(s.sent.Keys), now);
            var notify := RetransmitCheck(s, now).notify;
            && Ascending(keys)
            && (forall k :: k in keys <==>
                  && k in s.sent && s.sent[k].retryCount >= 2 && s.sent[k].recipient.port == 9000
                  && now - s.sent[k].sentTime > Timeout(s.sent[k].retryCount))
            && |notify| == |keys|
            && forall i :: 0 <= i < |keys| ==> keys[i] in s.sent && notify[i] == s.sent[keys[i]].recipient
  {
    var keys := Sorted(s.sent.Keys);
    SortedAscends(s.sent.Keys);
    ReportedKeysAscend(s.sent, keys, now);
    NoticesAreReported(s.sent, keys, now);
  }
}
