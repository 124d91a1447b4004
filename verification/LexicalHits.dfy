/**
 The round-robin that merges the ranked hits of several connections: scores of different
 connections are never compared.  Queues stand in connection order; an exhausted one is
 empty.
 */
module LexicalHits {
  import opened Basics

  type Hit = nat

  function Heads(queues: seq<seq<Hit>>): seq<Hit> {
    if queues == [] then [] else (if queues[0] == [] then [] else [queues[0][0]]) + Heads(queues[1..])
  }

  function Rest(queue: seq<Hit>): seq<Hit> {
    if queue == [] then [] else queue[1..]
  }

  function Tails(queues: seq<seq<Hit>>): (rest: seq<seq<Hit>>)
    ensures |rest| == |queues| && forall i | 0 <= i < |queues| :: rest[i] == Rest(queues[i])
  {
    seq(|queues|, i requires 0 <= i < |queues| => Rest(queues[i]))
  }

  function Length(queues: seq<seq<Hit>>): nat {
    if queues == [] then 0 else |queues[0]| + Length(queues[1..])
  }

  lemma {:induction false} RoundShortens(queues: seq<seq<Hit>>)
    ensures |Heads(queues)| + Length(Tails(queues)) == Length(queues)
    ensures Heads(queues) == [] <==> Length(queues) == 0
  {
    if queues == [] {
    } else {
      RoundShortens(queues[1..]);
      assert Tails(queues)[1..] == Tails(queues[1..]);
    }
  }

  /** All hits: the best of every connection in order, then the second best of every
      connection that has one, and so on. */
  function Rounds(queues: seq<seq<Hit>>): seq<Hit>
    decreases Length(queues)
  {
    RoundShortens(queues);
    if Length(queues) == 0 then [] else Heads(queues) + Rounds(Tails(queues))
  }

  function Served(queues: seq<seq<Hit>>, i: nat): seq<seq<Hit>>
    requires i <= |queues|
  {
    Tails(queues[..i]) + queues[i..]
  }

  lemma {:induction false} HeadsConcat(a: seq<seq<Hit>>, b: seq<seq<Hit>>)
    ensures Heads(a + b) == Heads(a) + Heads(b)
  {
    if a == [] {
      assert a + b == b;
    } else {
      var s := a + b;
      assert s[0] == a[0] && s[1..] == a[1..] + b;
      HeadsConcat(a[1..], b);
    }
  }

  lemma HeadsNext(queues: seq<seq<Hit>>, i: nat)
    requires i < |queues|
    ensures Heads(queues[..i + 1]) == Heads(queues[..i]) + (if queues[i] == [] then [] else [queues[i][0]])
    ensures Served(queues, i + 1) == Served(queues, i)[i := Rest(queues[i])]
  {
    assert queues[..i + 1] == queues[..i] + [queues[i]];
    HeadsConcat(queues[..i], [queues[i]]);
    var one: seq<seq<Hit>> := [queues[i]];
    assert one[1..] == [];
  }

  lemma ServedAt(queues: seq<seq<Hit>>, i: nat)
    requires i < |queues|
    ensures |Served(queues, i)| == |queues| && Served(queues, i)[i] == queues[i]
  {
  }

  lemma TakeStops(a: seq<Hit>, b: seq<Hit>, limit: nat)
    requires |a| >= limit
    ensures Take(a + b, limit) == Take(a, limit)
  {
  }

  /** One round: the next hit of each connection that still has one, unless there are
      enough before the round is over. */
  method OneRound(candidates: seq<seq<Hit>>, served: seq<Hit>, limit: nat)
    returns (results: seq<Hit>, rest: seq<seq<Hit>>)
    requires |served| < limit
    ensures |results| <= limit && results == Take(served + Heads(candidates), limit)
    ensures |results| < limit ==> rest == Tails(candidates)
  {
    results, rest := served, candidates;
    var i := 0;
    while i < |candidates| && |results| < limit
      invariant i <= |candidates| == |rest| && rest == Served(candidates, i)
      invariant results == served + Heads(candidates[..i]) && |results| <= limit
    {
      HeadsNext(candidates, i);
      ServedAt(candidates, i);
      var queue := rest[i];
      Regroup(served, Heads(candidates[..i]), if queue == [] then [] else [queue[0]]);
      if queue != [] {
        results := results + [queue[0]];
      }
      rest := rest[i := Rest(queue)];
      i := i + 1;
    }
    RoundStops(candidates, i, served, limit);
  }

  /** A round that stops part of the way has served as many hits as a whole one is cut to. */
  lemma RoundStops(candidates: seq<seq<Hit>>, i: nat, served: seq<Hit>, limit: nat)
    requires i <= |candidates| && |served + Heads(candidates[..i])| <= limit
    requires i == |candidates| || |served + Heads(candidates[..i])| == limit
    ensures Take(served + Heads(candidates), limit) == served + Heads(candidates[..i])
    ensures i == |candidates| ==> Served(candidates, i) == Tails(candidates)
  {
    HeadsConcat(candidates[..i], candidates[i..]);
    assert candidates == candidates[..i] + candidates[i..];
    if i == |candidates| {
      assert candidates[..i] == candidates;
    } else {
      assert served + Heads(candidates) == (served + Heads(candidates[..i])) + Heads(candidates[i..]);
      TakeStops(served + Heads(candidates[..i]), Heads(candidates[i..]), limit);
    }
  }

  /** Rounds until there are enough hits, or no more. */
  method RoundRobin(candidates: seq<seq<Hit>>, limit: nat) returns (results: seq<Hit>)
    ensures results == Take(Rounds(candidates), limit)
  {
    var queues := candidates;
    results := [];
    while |results| < limit && exists i | 0 <= i < |queues| :: queues[i] != []
      invariant |results| <= limit
      invariant Take(Rounds(candidates), limit) == Take(results + Rounds(queues), limit)
      decreases Length(queues)
    {
      ghost var before, served := queues, results;
      RoundsUnfold(before);
      RoundShortens(before);
      results, queues := OneRound(queues, results, limit);
      RoundServed(served, Heads(before), Rounds(Tails(before)), limit);
      if |results| == limit {
        return;
      }
    }
    if |results| < limit {
      AllEmpty(queues);
      assert Rounds(queues) == [];
    } else {
      TakeStops(results, Rounds(queues), limit);
    }
  }

  lemma RoundServed(served: seq<Hit>, round: seq<Hit>, later: seq<Hit>, limit: nat)
    ensures
      var results := Take(served + round, limit);
      && (|results| == limit ==> Take(served + (round + later), limit) == results)
      && (|results| < limit ==> served + (round + later) == results + later)
  {
    assert served + (round + later) == (served + round) + later;
  }

  lemma {:induction false} SomeIsLong(queues: seq<seq<Hit>>)
    requires exists i | 0 <= i < |queues| :: queues[i] != []
    ensures Length(queues) > 0
  {
    if queues[0] == [] {
      var i :| 0 <= i < |queues| && queues[i] != [];
      assert queues[1..][i - 1] == queues[i];
      SomeIsLong(queues[1..]);
    }
  }

  lemma {:induction false} AllEmpty(queues: seq<seq<Hit>>)
    requires forall i | 0 <= i < |queues| :: queues[i] == []
    ensures Length(queues) == 0
  {
    if queues == [] {
    } else {
      assert queues[0] == [];
      AllEmpty(queues[1..]);
    }
  }

  function Least(a: nat, b: nat): nat {
    if a < b then a else b
  }

  /** How many hits come before those of round `r`. */
  function Earlier(queues: seq<seq<Hit>>, r: nat): nat {
    if queues == [] then 0 else Least(|queues[0]|, r) + Earlier(queues[1..], r)
  }

  /** How many connections still have a hit in round `r`. */
  function Standing(queues: seq<seq<Hit>>, r: nat): nat {
    if queues == [] then 0 else (if |queues[0]| > r then 1 else 0) + Standing(queues[1..], r)
  }

  lemma {:induction false} HeadsAt(queues: seq<seq<Hit>>, i: nat)
    requires i < |queues| && queues[i] != []
    ensures Standing(queues[..i], 0) < |Heads(queues)|
    ensures Heads(queues)[Standing(queues[..i], 0)] == queues[i][0]
  {
    if i > 0 {
      HeadsAt(queues[1..], i - 1);
      assert queues[..i][1..] == queues[1..][..i - 1];
    }
  }

  lemma {:induction false} TailsAt(queues: seq<seq<Hit>>, r: nat)
    ensures Standing(Tails(queues), r) == Standing(queues, r + 1)
    ensures |Heads(queues)| + Earlier(Tails(queues), r) == Earlier(queues, r + 1)
  {
    if queues == [] {
    } else {
      TailsAt(queues[1..], r);
      assert Tails(queues)[1..] == Tails(queues[1..]);
    }
  }

  lemma {:induction false} RoundsUnfold(queues: seq<seq<Hit>>)
    requires exists i | 0 <= i < |queues| :: queues[i] != []
    ensures Length(queues) > 0 && Rounds(queues) == Heads(queues) + Rounds(Tails(queues))
  {
    SomeIsLong(queues);
  }

  lemma {:induction false} PositionAfterRound(queues: seq<seq<Hit>>, i: nat, r: nat)
    requires i <= |queues|
    ensures
      Earlier(queues, r + 1) + Standing(queues[..i], r + 1) ==
      |Heads(queues)| + (Earlier(Tails(queues), r) + Standing(Tails(queues)[..i], r))
  {
    TailsAt(queues, r);
    TailsAt(queues[..i], r);
    assert Tails(queues)[..i] == Tails(queues[..i]);
  }

  /** How many hits are served before that of rank `r` of connection `i`. */
  function Position(queues: seq<seq<Hit>>, i: nat, r: nat): nat
    requires i <= |queues|
  {
    Earlier(queues, r) + Standing(queues[..i], r)
  }

  lemma {:induction false} ServedFirst(queues: seq<seq<Hit>>, i: nat)
    requires i < |queues| && queues[i] != []
    ensures Position(queues, i, 0) < |Rounds(queues)| && Rounds(queues)[Position(queues, i, 0)] == queues[i][0]
  {
    RoundsUnfold(queues);
    HeadsAt(queues, i);
    NothingEarlier(queues);
    Before(Heads(queues), Rounds(Tails(queues)), Standing(queues[..i], 0));
  }

  lemma {:induction false} ServedLater(queues: seq<seq<Hit>>, i: nat, r: nat, hit: Hit)
    requires i < |queues| && queues[i] != []
    requires
      var p := Position(Tails(queues), i, r);
      p < |Rounds(Tails(queues))| && Rounds(Tails(queues))[p] == hit
    ensures Position(queues, i, r + 1) < |Rounds(queues)| && Rounds(queues)[Position(queues, i, r + 1)] == hit
  {
    RoundsUnfold(queues);
    PositionAfterRound(queues, i, r);
    Behind(Heads(queues), Rounds(Tails(queues)), Position(Tails(queues), i, r));
  }

  /** Every hit is served exactly where fairness puts it: the hit of rank `r` of connection
      `i` comes after the first `r` hits of every connection and the hit of rank `r` of the
      connections before it, and after nothing else. */
  lemma {:induction false} ServedInTurn(queues: seq<seq<Hit>>, i: nat, r: nat)
    requires i < |queues| && r < |queues[i]|
    ensures Position(queues, i, r) < |Rounds(queues)| && Rounds(queues)[Position(queues, i, r)] == queues[i][r]
    decreases r
  {
    if r == 0 {
      ServedFirst(queues, i);
    } else {
      assert Tails(queues)[i] == Rest(queues[i]);
      ServedInTurn(Tails(queues), i, r - 1);
      ServedLater(queues, i, r - 1, queues[i][r]);
    }
  }

  lemma Before(a: seq<Hit>, b: seq<Hit>, p: nat)
    requires p < |a|
    ensures (a + b)[p] == a[p]
  {
  }

  lemma Behind(a: seq<Hit>, b: seq<Hit>, p: nat)
    requires p < |b|
    ensures (a + b)[|a| + p] == b[p]
  {
  }

  lemma {:induction false} NothingEarlier(queues: seq<seq<Hit>>)
    ensures Earlier(queues, 0) == 0
  {
    if queues != [] { NothingEarlier(queues[1..]); }
  }
}
