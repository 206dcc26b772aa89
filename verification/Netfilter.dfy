/** The rules an ENTA adds to the system and how it takes them away again. */
module Netfilter {
  import opened Wrappers

  datatype Rule = Dnat(dport: nat) | Redirect(toPort: nat) | OtherRule(id: nat)
  datatype Route = DefaultVia | OtherRoute(id: nat)
  datatype Policy = Policy(dport: nat, table: nat)

  /** The OUTPUT and PREROUTING chains of the nat table, routing table 8, and the policy rules. */
  datatype Tables = Tables(output: seq<Rule>, prerouting: seq<Rule>, table8: seq<Route>, policies: seq<Policy>)

  const CAPTURE_COMMANDS: nat := 4

  function RemoveFirst<T(==)>(c: seq<T>, r: T): seq<T> {
    if c == [] then [] else if c[0] == r then c[1..] else [c[0]] + RemoveFirst(c[1..], r)
  }

  function Unselected(ps: seq<Policy>): seq<Policy> {
    if ps == [] then []
    else if ps[0].table == 8 then Unselected(ps[1..])
    else [ps[0]] + Unselected(ps[1..])
  }

  /** The tables after the first k commands of the capture script have succeeded. */
  function Captured(t: Tables, port: nat, k: nat): Tables {
    t.(output := if k >= 1 then t.output + [Dnat(port)] else t.output,
       table8 := if k >= 2 then t.table8 + [DefaultVia] else t.table8,
       policies := if k >= 3 then t.policies + [Policy(port, 8)] else t.policies)
  }

  function Replayed(t: Tables, port: nat, k: nat): Tables {
    t.(prerouting := if k >= 1 then t.prerouting + [Redirect(port)] else t.prerouting)
  }

  /** How far set-up got: commands of the capture script, commands of the replay script. */
  datatype Progress = Progress(c: nat, r: nat)

  predicate Possible(capture: Option<nat>, replay: Option<nat>, p: Progress) {
    && p.c <= (if capture.Some? then CAPTURE_COMMANDS else 0)
    && p.r <= (if replay.Some? then 1 else 0)
    && (p.r > 0 && capture.Some? ==> p.c == CAPTURE_COMMANDS)   // sh -e, then ensure!
  }

  function SetUp(t: Tables, capture: Option<nat>, replay: Option<nat>, p: Progress): Tables {
    var t1 := if capture.Some? then Captured(t, capture.value, p.c) else t;
    if replay.Some? then Replayed(t1, replay.value, p.r) else t1
  }

  /** What can go wrong in clean-up itself: a shell that does not start, and each command failing
      although it has something to remove. If the first shell or the last command of the first
      script (flushing the route cache) fails, clean_up returns before the second script. */
  datatype Trouble = Trouble(
    shell1: bool, delete1: bool, routes: bool, rules: bool, flush: bool,
    shell2: bool, delete2: bool)

  const NO_TROUBLE := Trouble(false, false, false, false, false, false, false)

  /** A packet to this port that originates here has its destination changed. */
  predicate Diverted(t: Tables, port: nat) { Dnat(port) in t.output }

  /** A packet to this port is looked up in that routing table. */
  predicate LookedUp(t: Tables, port: nat, table: nat) { Policy(port, table) in t.policies }

  /** What the capture script does, command by command. After all of it, packets to the captured
      port are diverted, looked up in table 8, and find the default route there; packets to other
      ports are treated as before. */
  lemma CaptureTakesEffect(t: Tables, port: nat, k: nat)
    requires k <= CAPTURE_COMMANDS
    ensures var u := Captured(t, port, k);
            && (forall p: nat :: Diverted(u, p) <==> Diverted(t, p) || (k >= 1 && p == port))
            && (DefaultVia in u.table8 <==> DefaultVia in t.table8 || k >= 2)
            && (forall p: nat, n: nat ::
                  LookedUp(u, p, n) <==> LookedUp(t, p, n) || (k >= 3 && p == port && n == 8))
            && (k == CAPTURE_COMMANDS ==> Diverted(u, port) && LookedUp(u, port, 8) && DefaultVia in u.table8)
            // what was there before is still there and still comes first
            && t.output <= u.output && t.table8 <= u.table8 && u.prerouting == t.prerouting
  {
  }

  /** And the replay script: packets that come in diverted go to the replay port, and no other
      port is affected. */
  lemma ReplayTakesEffect(t: Tables, port: nat, k: nat)
    requires k <= 1
    ensures var u := Replayed(t, port, k);
            && (forall p: nat :: Redirect(p) in u.prerouting <==> Redirect(p) in t.prerouting || (k == 1 && p == port))
            && t.prerouting <= u.prerouting
            && u.output == t.output && u.table8 == t.table8 && u.policies == t.policies
  {
  }

  function Uncaptured(t: Tables, port: nat, e: Trouble): Tables {
    t.(output := if e.delete1 then t.output else RemoveFirst(t.output, Dnat(port)),
       table8 := if e.routes then t.table8 else [],
       policies := if e.rules then t.policies else Unselected(t.policies))
  }

  function Unreplayed(t: Tables, port: nat, e: Trouble): Tables {
    t.(prerouting := if e.delete2 then t.prerouting else RemoveFirst(t.prerouting, Redirect(port)))
  }

  predicate SecondScriptRuns(capture: Option<nat>, e: Trouble) {
    (capture.Some? ==> !e.shell1 && !e.flush) && !e.shell2
  }

  function CleanUp(t: Tables, capture: Option<nat>, replay: Option<nat>, e: Trouble): Tables {
    var t1 := if capture.Some? && !e.shell1 then Uncaptured(t, capture.value, e) else t;
    if replay.Some? && SecondScriptRuns(capture, e) then Unreplayed(t1, replay.value, e) else t1
  }

  /** Every command that set-up carried out has its counterpart carried out in clean-up. */
  predicate EachUndone(capture: Option<nat>, p: Progress, e: Trouble) {
    && (p.c >= 1 ==> !e.shell1 && !e.delete1)
    && (p.c >= 2 ==> !e.routes)
    && (p.c >= 3 ==> !e.rules)
    && (p.r >= 1 ==> (capture.Some? ==> !e.shell1 && !e.flush) && !e.shell2 && !e.delete2)
  }

  // ------------------------------------------------------------ the scripts, run step by step

  class System {
    var tables: Tables

    constructor (t: Tables)
      ensures tables == t
    {
      tables := t;
    }

    /** One command of a set-up script: it takes effect or fails. */
    method Try(next: Tables) returns (ok: bool)
      modifies this
      ensures tables == if ok then next else old(tables)
    {
      ok := *;
      if ok { tables := next; }
    }

    /** The capture script under "sh -e": it stops at the first command that fails. */
    method CaptureScript(port: nat) returns (ok: bool, ghost k: nat)
      modifies this
      ensures k <= CAPTURE_COMMANDS && (ok <==> k == CAPTURE_COMMANDS)
      ensures tables == Captured(old(tables), port, k)
    {
      k := 0;
      ok := Try(tables.(output := tables.output + [Dnat(port)]));
      if !ok { return; }
      k := 1;
      ok := Try(tables.(table8 := tables.table8 + [DefaultVia]));
      if !ok { return; }
      k := 2;
      ok := Try(tables.(policies := tables.policies + [Policy(port, 8)]));
      if !ok { return; }
      k := 3;
      ok := Try(tables);                                // flushing the route cache
      if !ok { return; }
      k := 4;
    }

    /** setup_netfilter. */
    method SetUpNetfilter(capture: Option<nat>, replay: Option<nat>) returns (ok: bool, ghost p: Progress)
      modifies this
      ensures Possible(capture, replay, p)
      ensures tables == SetUp(old(tables), capture, replay, p)
      ensures ok <==> p == Progress(if capture.Some? then CAPTURE_COMMANDS else 0, if replay.Some? then 1 else 0)
    {
      p := Progress(0, 0);
      if capture.Some? {
        var done, k := CaptureScript(capture.value);
        p := Progress(k, 0);
        if !done { return false, p; }
      }
      if replay.Some? {
        ok := Try(tables.(prerouting := tables.prerouting + [Redirect(replay.value)]));
        if !ok { return false, p; }
        p := p.(r := 1);
      }
      ok := true;
    }

    /** Deletes the first matching rule, if there is one, from a chain. */
    static method Delete(chain: seq<Rule>, rule: Rule) returns (c: seq<Rule>)
      ensures c == RemoveFirst(chain, rule)
    {
      var i := 0;
      while i < |chain| && chain[i] != rule
        invariant 0 <= i <= |chain| && rule !in chain[..i]
      {
        i := i + 1;
      }
      if i == |chain| {
        assert chain[..i] == chain;
        RemoveAbsent(chain, rule);
        return chain;
      }
      RemoveBehind(chain[..i], chain[i..], rule);
      assert chain[..i] + chain[i..] == chain;
      c := chain[..i] + chain[i + 1..];
    }

    /** clean_up: each command runs whether or not the one before it worked; only the last one of
        a script is looked at. Deleting a rule that is not there fails. */
    method CleanUpNetfilter(capture: Option<nat>, replay: Option<nat>, e: Trouble) returns (ok: bool)
      modifies this
      ensures tables == CleanUp(old(tables), capture, replay, e)
      ensures ok <==> (capture.Some? ==> !e.shell1 && !e.flush)
                      && (replay.Some? ==> !e.shell2 && !e.delete2 && Redirect(replay.value) in old(tables).prerouting)
    {
      if capture.Some? {
        if e.shell1 { return false; }
        if !e.delete1 {
          var c := Delete(tables.output, Dnat(capture.value));
          tables := tables.(output := c);
        }
        if !e.routes { tables := tables.(table8 := []); }
        if !e.rules { tables := tables.(policies := Unselected(tables.policies)); }
        if e.flush { return false; }
      }
      ok := true;
      if replay.Some? {
        if e.shell2 { return false; }
        ok := !e.delete2 && Redirect(replay.value) in tables.prerouting;
        if !e.delete2 {
          var c := Delete(tables.prerouting, Redirect(replay.value));
          tables := tables.(prerouting := c);
        }
      }
    }
  }

  /** main: clean-up is attempted whatever run did, also when it never came to set-up. */
  method RunAndCleanUp(s: System, capture: Option<nat>, replay: Option<nat>, e: Trouble)
    returns (ghost p: Progress)
    modifies s
    ensures Possible(capture, replay, p)
    ensures s.tables == CleanUp(SetUp(old(s.tables), capture, replay, p), capture, replay, e)
  {
    p := Progress(0, 0);
    var connected: bool := *;
    if connected {
      var ok;
      ok, p := s.SetUpNetfilter(capture, replay);
    }
    var cleaned := s.CleanUpNetfilter(capture, replay, e);
  }

  // ------------------------------------------------------------ undo

  lemma {:induction false} RemoveAbsent<T>(c: seq<T>, r: T)
    ensures r !in c <==> RemoveFirst(c, r) == c
    ensures |RemoveFirst(c, r)| == if r in c then |c| - 1 else |c|
  {
    if c != [] && c[0] != r {
      RemoveAbsent(c[1..], r);
      assert RemoveFirst(c, r)[1..] == RemoveFirst(c[1..], r);
    }
  }

  lemma {:induction false} RemoveBehind<T>(a: seq<T>, b: seq<T>, r: T)
    requires r !in a
    ensures RemoveFirst(a + b, r) == a + RemoveFirst(b, r)
  {
    if a == [] {
      assert a + b == b;
    } else {
      assert (a + b)[1..] == a[1..] + b;
      RemoveBehind(a[1..], b, r);
    }
  }

  lemma RemoveAppended<T>(c: seq<T>, r: T)
    requires r !in c
    ensures RemoveFirst(c + [r], r) == c
  {
    RemoveBehind(c, [r], r);
  }

  /** Deleting the first match takes exactly one copy out of the multiset. */
  lemma {:induction false} RemoveCounts<T>(c: seq<T>, r: T)
    ensures multiset(RemoveFirst(c, r)) == multiset(c) - multiset{r}
  {
    if c != [] {
      assert c == [c[0]] + c[1..];
      if c[0] != r { RemoveCounts(c[1..], r); }
    }
  }

  lemma {:induction false} UnselectedAppend(ps: seq<Policy>, q: Policy)
    requires q.table == 8
    ensures Unselected(ps + [q]) == Unselected(ps)
  {
    if ps == [] {
      assert ([] + [q])[1..] == [];
    } else {
      assert (ps + [q])[1..] == ps[1..] + [q];
      UnselectedAppend(ps[1..], q);
    }
  }

  ghost predicate NoneSelected(ps: seq<Policy>) { forall i :: 0 <= i < |ps| ==> ps[i].table != 8 }

  lemma {:induction false} UnselectedKeeps(ps: seq<Policy>)
    ensures |Unselected(ps)| <= |ps|
    ensures NoneSelected(ps) <==> Unselected(ps) == ps
  {
    if ps != [] {
      UnselectedKeeps(ps[1..]);
      assert NoneSelected(ps) <==> ps[0].table != 8 && NoneSelected(ps[1..]) by {
        if ps[0].table != 8 && NoneSelected(ps[1..]) {
          forall i | 0 <= i < |ps| ensures ps[i].table != 8 { if i > 0 { assert ps[1..][i - 1].table != 8; } }
        }
      }
    }
  }

  /** Exactly the policy rules for table 8 go. */
  lemma {:induction false} UnselectedIsTheRest(ps: seq<Policy>)
    ensures NoneSelected(Unselected(ps))
    ensures forall p: Policy :: p.table != 8 ==> multiset(Unselected(ps))[p] == multiset(ps)[p]
  {
    if ps != [] {
      UnselectedIsTheRest(ps[1..]);
      assert ps == [ps[0]] + ps[1..];
    }
  }

  /** None of ENTA's own rules are there, and table 8 is not in use. */
  ghost predicate Untouched(t: Tables, capture: Option<nat>, replay: Option<nat>) {
    && (capture.Some? ==> Dnat(capture.value) !in t.output && t.table8 == [] && NoneSelected(t.policies))
    && (replay.Some? ==> Redirect(replay.value) !in t.prerouting)
  }

  /** Undo. Wherever set-up stopped, from before its first command to after its last, and whatever
      fails in clean-up, it restores the tables exactly if and only if each command that has
      something to undo gets to run and works. The second script does not get to run if the first
      one's last command fails. */
  lemma CleanUpRestores(t: Tables, capture: Option<nat>, replay: Option<nat>, p: Progress, e: Trouble)
    requires Untouched(t, capture, replay) && Possible(capture, replay, p)
    ensures CleanUp(SetUp(t, capture, replay, p), capture, replay, e) == t
            <==> EachUndone(capture, p, e)
  {
    if capture.Some? {
      RemoveAppended(t.output, Dnat(capture.value));
      RemoveAbsent(t.output, Dnat(capture.value));
      UnselectedAppend(t.policies, Policy(capture.value, 8));
      UnselectedKeeps(t.policies);
    }
    if replay.Some? {
      RemoveAppended(t.prerouting, Redirect(replay.value));
      RemoveAbsent(t.prerouting, Redirect(replay.value));
    }
  }

  /** With a rule of the same text already there, append and delete-first keep the chain as a
      multiset; a clean-up without its append (set-up never got that far) keeps it only if there
      was no such rule: it deletes somebody else's. */
  lemma ChainAsMultiset(c: seq<Rule>, r: Rule, appended: bool)
    ensures multiset(RemoveFirst(if appended then c + [r] else c, r)) == multiset(c) <==> appended || r !in c
  {
    var d := if appended then c + [r] else c;
    RemoveCounts(d, r);
    if appended {
      assert multiset(d) == multiset(c) + multiset{r};
    } else if r in c {
      assert multiset(c)[r] > 0;
    }
  }

  /** The order is kept exactly when, from the first such rule on, the chain held nothing else. */
  lemma {:induction false} ChainAsSequence<T>(c: seq<T>, r: T)
    ensures RemoveFirst(c + [r], r) == c <==> forall i, j :: 0 <= i < j < |c| && c[i] == r ==> c[j] == r
  {
    if c == [] {
      assert ([] + [r])[1..] == [];
    } else if c[0] == r {
      assert (c + [r])[1..] == c[1..] + [r];
      if forall j :: 0 < j < |c| ==> c[j] == r { assert c[1..] + [r] == c; }
      if c[1..] + [r] == c { AllTheSame(c, r); }
    } else {
      ChainAsSequence(c[1..], r);
      assert (c + [r])[1..] == c[1..] + [r];
      assert c == [c[0]] + c[1..];
      assert forall j :: 0 <= j < |c| - 1 ==> c[1..][j] == c[j + 1];
    }
  }

  lemma {:induction false} AllTheSame<T>(c: seq<T>, r: T)
    requires c != [] && c[1..] + [r] == c
    ensures forall j :: 0 <= j < |c| ==> c[j] == r
  {
    forall j | 0 <= j < |c| ensures c[j] == r { SameFrom(c, r, j); }
  }

  lemma {:induction false} SameFrom<T>(c: seq<T>, r: T, j: nat)
    requires j < |c| && c[1..] + [r] == c
    ensures c[j] == r
    decreases |c| - j
  {
    assert (c[1..] + [r])[j] == c[j];
    if j + 1 < |c| { SameFrom(c, r, j + 1); }
  }

  /** Table 8 is emptied for everybody: what was in it before comes back only if there was
      nothing, and the same for policy rules that point to it. */
  lemma TableEightIsEmptied(t: Tables, port: nat, k: nat)
    ensures var u := Uncaptured(Captured(t, port, k), port, NO_TROUBLE);
            && (u.table8 == t.table8 <==> t.table8 == [])
            && (u.policies == t.policies <==> NoneSelected(t.policies))
            && u.table8 == [] && NoneSelected(u.policies)
            && (forall p: Policy :: p.table != 8 ==> multiset(u.policies)[p] == multiset(t.policies)[p])
  {
    UnselectedAppend(t.policies, Policy(port, 8));
    UnselectedIsTheRest(t.policies);
    UnselectedKeeps(t.policies);
  }
}
