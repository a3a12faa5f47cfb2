/** The running figures of the accuracy summary, given the accuracy of each client. */
module Tallies {
  import SetSum

  /** The clients with a match, given each client's accuracy. */
  ghost function Matched(clients: set<string>, acc: string -> real): set<string> {
    set c | c in clients && acc(c) != -1.0
  }

  /** The three running figures of the loop over the clients. */
  ghost predicate Tally(done: set<string>, known: set<string>, acc: string -> real, missing: nat, matched: nat, total: real) {
    && missing == |done - known|
    && matched == |Matched(done, acc)|
    && total == SetSum.RealSum(Matched(done, acc), acc)
  }

  lemma TallyNext(done: set<string>, known: set<string>, acc: string -> real, missing: nat, matched: nat, total: real, c: string)
    requires Tally(done, known, acc, missing, matched, total) && c !in done
    ensures Tally(done + {c}, known, acc,
                  if c in known then missing else missing + 1,
                  if acc(c) != -1.0 then matched + 1 else matched,
                  if acc(c) != -1.0 then total + acc(c) else total)
  {
    assert done + {c} - known == if c in known then done - known else done - known + {c};
    MatchedNext(done, acc, c);
    if acc(c) != -1.0 {
      SetSum.RealSumRemove(Matched(done + {c}, acc), acc, c);
    }
  }

  lemma MatchedNext(done: set<string>, acc: string -> real, c: string)
    requires c !in done
    ensures acc(c) == -1.0 ==> Matched(done + {c}, acc) == Matched(done, acc)
    ensures acc(c) != -1.0 ==>
              c in Matched(done + {c}, acc) && Matched(done + {c}, acc) - {c} == Matched(done, acc)
              && |Matched(done + {c}, acc)| == |Matched(done, acc)| + 1
  {
  }

  /** Figures that add up: at most one of missing and matched per client, and a proper mean. */
  lemma TallyBounds(all: set<string>, known: set<string>, acc: string -> real, missing: nat, matched: nat, total: real)
    requires Tally(all, known, acc, missing, matched, total)
    requires forall c | c in all :: if acc(c) != -1.0 then c in known && 0.0 < acc(c) <= 1.0 else true
    ensures matched + missing <= |all|
    ensures 0.0 <= total <= matched as real && (matched > 0 ==> 0.0 < total)
  {
    var m, u := Matched(all, acc), all - known;
    assert m !! u;
    assert |m + u| == |m| + |u|;
    SubsetSize(m + u, all);
    SetSum.RealSumBounds(m, acc);
  }

  lemma {:induction false} SubsetSize<T>(a: set<T>, b: set<T>)
    requires a <= b
    ensures |a| <= |b|
    decreases |a|
  {
    if a != {} {
      var x :| x in a;
      SubsetSize(a - {x}, b - {x});
    }
  }

  // -------------------------------------------------------------- the loop

  /** The keys of a dictionary, in the order in which it is iterated. */
  ghost predicate Orders(keys: seq<string>, clients: set<string>) {
    && (forall i, j | 0 <= i < j < |keys| :: keys[i] != keys[j])
    && (forall c :: c in clients <==> c in keys)
  }

  method SomeOrder(clients: set<string>) returns (keys: seq<string>)
    ensures Orders(keys, clients)
  {
    keys := [];
    var rest := clients;
    while rest != {}
      invariant rest <= clients && Orders(keys, clients - rest)
      decreases rest
    {
      var c :| c in rest;
      assert c !in keys;
      keys, rest := keys + [c], rest - {c};
    }
  }

  function MissingCount(keys: seq<string>, known: set<string>): nat {
    if keys == [] then 0
    else MissingCount(keys[..|keys| - 1], known) + if keys[|keys| - 1] in known then 0 else 1
  }

  function MatchedCount(keys: seq<string>, acc: string -> real): nat {
    if keys == [] then 0
    else MatchedCount(keys[..|keys| - 1], acc) + if acc(keys[|keys| - 1]) != -1.0 then 1 else 0
  }

  function AccuracySum(keys: seq<string>, acc: string -> real): real {
    if keys == [] then 0.0
    else AccuracySum(keys[..|keys| - 1], acc) + if acc(keys[|keys| - 1]) != -1.0 then acc(keys[|keys| - 1]) else 0.0
  }

  lemma OrdersInit(keys: seq<string>, clients: set<string>)
    requires Orders(keys, clients) && keys != []
    ensures var c := keys[|keys| - 1];
            Orders(keys[..|keys| - 1], clients - {c}) && clients - {c} + {c} == clients
  {
  }

  /** The order does not matter: the running figures are those of the set. */
  lemma {:induction false} CountsAreTally(keys: seq<string>, clients: set<string>, known: set<string>, acc: string -> real)
    requires Orders(keys, clients)
    ensures Tally(clients, known, acc, MissingCount(keys, known), MatchedCount(keys, acc), AccuracySum(keys, acc))
    decreases |keys|
  {
    if keys == [] {
      assert clients == {} && Matched(clients, acc) == {};
    } else {
      var init, c := keys[..|keys| - 1], keys[|keys| - 1];
      OrdersInit(keys, clients);
      CountsAreTally(init, clients - {c}, known, acc);
      TallyNext(clients - {c}, known, acc, MissingCount(init, known), MatchedCount(init, acc), AccuracySum(init, acc), c);
    }
  }

  /** The loop over the clients, in any order. */
  method CompareClients(clients: set<string>, known: set<string>, accuracy: string -> real)
    returns (maccuracy: map<string, real>, missing: nat, matched: nat, total: real)
    ensures maccuracy.Keys == clients && forall c | c in clients :: maccuracy[c] == accuracy(c)
    ensures Tally(clients, known, accuracy, missing, matched, total)
  {
    var keys := SomeOrder(clients);
    maccuracy := map[];
    missing, matched, total := 0, 0, 0.0;
    var i := 0;
    while i < |keys|
      invariant 0 <= i <= |keys|
      invariant forall c :: c in maccuracy <==> c in keys[..i]
      invariant forall c | c in maccuracy :: maccuracy[c] == accuracy(c)
      invariant missing == MissingCount(keys[..i], known)
      invariant matched == MatchedCount(keys[..i], accuracy)
      invariant total == AccuracySum(keys[..i], accuracy)
    {
      var eclient := keys[i];
      assert keys[..i + 1][..i] == keys[..i];
      maccuracy := maccuracy[eclient := accuracy(eclient)];
      if eclient !in known {
        missing := missing + 1;
      }
      if maccuracy[eclient] != -1.0 {
        matched := matched + 1;
        total := total + maccuracy[eclient];
      }
      i := i + 1;
    }
    assert keys[..i] == keys;
    CountsAreTally(keys, clients, known, accuracy);
  }
}
