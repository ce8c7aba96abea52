/**
 The one rule list of the box and the managers that share it (core/instance/instance.go,
 node/node.go): every node has a manager with a lock and a file of its own, and all of
 them replace the same list.
 */
module SharedRouter {
  import opened Api
  import opened Commons
  import opened LimiterSync
  import opened RelayRules
  import opened Polling

  /** The owner of the rules the box was built with. Managers have other numbers. */
  const BOX: nat := 0

  /** A rule object: serials are counted by each manager for itself. */
  datatype Entry = Entry(owner: nat, rule: Rule)

  /** The rules of one owner, in the order of the list. */
  function Of(rules: seq<Entry>, owner: nat): seq<Rule> {
    if rules == [] then []
    else
      var init, last := Of(rules[..|rules| - 1], owner), rules[|rules| - 1];
      if last.owner == owner then init + [last.rule] else init
  }

  /** The list without one rule object. */
  function Dropped(rules: seq<Entry>, entry: Entry): seq<Entry> {
    if rules == [] then []
    else
      var init, last := Dropped(rules[..|rules| - 1], entry), rules[|rules| - 1];
      if last != entry then init + [last] else init
  }

  lemma OfMore(rules: seq<Entry>, entry: Entry, owner: nat)
    ensures Of(rules + [entry], owner) ==
            if entry.owner == owner then Of(rules, owner) + [entry.rule] else Of(rules, owner)
  {
    assert (rules + [entry])[..|rules|] == rules;
  }

  lemma WithoutMore(rules: seq<Rule>, last: Rule, rule: Rule)
    ensures Without(rules + [last], rule) ==
            if last != rule then Without(rules, rule) + [last] else Without(rules, rule)
  {
    assert (rules + [last])[..|rules|] == rules;
  }

  /** Dropping a rule of one owner leaves every other owner's rules as they were. */
  lemma {:induction false} OfDropped(rules: seq<Entry>, owner: nat, rule: Rule, other: nat)
    ensures Of(Dropped(rules, Entry(owner, rule)), other) ==
            if other == owner then Without(Of(rules, owner), rule) else Of(rules, other)
  {
    if rules != [] {
      var init, last := rules[..|rules| - 1], rules[|rules| - 1];
      var rest := Dropped(init, Entry(owner, rule));
      OfDropped(init, owner, rule, other);
      OfMore(rest, last, other);
      if last.owner == owner {
        WithoutMore(Of(init, owner), last.rule, rule);
      }
    }
  }

  // ----- One edit of the list -----

  /** A successful call of addRouterRule or removeRouterRule. */
  datatype Edit = AddOne(mainTag: string, relayTag: string, s: Subscription) | RemoveOne(tag: RuleTag)

  function Edited(r: Router, e: Edit): Router {
    match e
    case AddOne(mainTag, relayTag, s) => AddRule(r, mainTag, relayTag, s)
    case RemoveOne(tag) => RemoveRule(r, tag)
  }

  /** What a manager keeps for itself. */
  datatype File = File(relayRules: map<RuleTag, Rule>, built: nat)

  datatype Shared = Shared(rules: seq<Entry>, files: map<nat, File>)

  function FileOf(w: Shared, m: nat): File { if m in w.files then w.files[m] else File(map[], 0) }

  /** The router as one manager sees it: its own rules in the list, and its file. */
  function View(w: Shared, m: nat): Router {
    Router(Of(w.rules, m), FileOf(w, m).relayRules, FileOf(w, m).built)
  }

  /** An unknown tag is not looked for in the list. */
  predicate Writes(f: File, e: Edit) { e.RemoveOne? ==> e.tag in f.relayRules }

  /** The list a manager writes, from the list it read. */
  function Written(read: seq<Entry>, m: nat, f: File, e: Edit): seq<Entry>
    requires Writes(f, e)
  {
    match e
    case AddOne(mainTag, relayTag, s) => read + [Entry(m, RuleFor(f.built, mainTag, relayTag, s))]
    case RemoveOne(tag) => Dropped(read, Entry(m, f.relayRules[tag]))
  }

  function Refiled(f: File, e: Edit): File {
    match e
    case AddOne(mainTag, relayTag, s) =>
      File(f.relayRules[RuleTag(relayTag, s.id) := RuleFor(f.built, mainTag, relayTag, s)], f.built + 1)
    case RemoveOne(tag) => f.(relayRules := f.relayRules - {tag})
  }

  /** A manager sets the list, edited from what it read some time ago. */
  function Commit(w: Shared, m: nat, read: seq<Entry>, e: Edit): Shared {
    if Writes(FileOf(w, m), e)
    then Shared(Written(read, m, FileOf(w, m), e), w.files[m := Refiled(FileOf(w, m), e)])
    else w
  }

  lemma WrittenParts(read: seq<Entry>, m: nat, f: File, e: Edit, k: nat)
    requires Writes(f, e)
    ensures k != m ==> Of(Written(read, m, f, e), k) == Of(read, k)
    ensures Router(Of(Written(read, m, f, e), m), Refiled(f, e).relayRules, Refiled(f, e).built) ==
            Edited(Router(Of(read, m), f.relayRules, f.built), e)
  {
    match e
    case AddOne(mainTag, relayTag, s) =>
      OfMore(read, Entry(m, RuleFor(f.built, mainTag, relayTag, s)), k);
      OfMore(read, Entry(m, RuleFor(f.built, mainTag, relayTag, s)), m);
    case RemoveOne(tag) =>
      OfDropped(read, m, f.relayRules[tag], k);
      OfDropped(read, m, f.relayRules[tag], m);
  }

  /** A list read since its own rules last changed: on its own view a manager does what it would do alone. */
  lemma CommitOnOwnView(w: Shared, m: nat, read: seq<Entry>, e: Edit)
    requires Of(read, m) == Of(w.rules, m)
    ensures View(Commit(w, m, read, e), m) == Edited(View(w, m), e)
  {
    if Writes(FileOf(w, m), e) {
      WrittenParts(read, m, FileOf(w, m), e, m);
    }
  }

  /**
   The race, exactly: another owner keeps its rules through a write if and only if
   they have not changed since the writer read the list.
   */
  lemma CommitKeepsOtherIff(w: Shared, m: nat, read: seq<Entry>, e: Edit, k: nat)
    requires k != m && Writes(FileOf(w, m), e)
    ensures View(Commit(w, m, read, e), k) == View(w, k) <==> Of(read, k) == Of(w.rules, k)
  {
    WrittenParts(read, m, FileOf(w, m), e, k);
  }

  // ----- Any interleaving of reads and writes -----

  /** `held`: what each manager has read under its lock and not written back yet. */
  datatype System = System(shared: Shared, held: map<nat, seq<Entry>>)

  datatype Act = Read(m: nat) | Set(m: nat, e: Edit)

  function Step(w: System, a: Act): System {
    match a
    case Read(m) => w.(held := w.held[m := w.shared.rules])
    case Set(m, e) =>
      if m in w.held then System(Commit(w.shared, m, w.held[m], e), w.held - {m}) else w
  }

  function Run(w: System, acts: seq<Act>): System
    decreases |acts|
  {
    if acts == [] then w else Step(Run(w, acts[..|acts| - 1]), acts[|acts| - 1])
  }

  /** The list is what the box was built with, followed by rules of managers. */
  predicate OwnFirst(rules: seq<Entry>, own: seq<Entry>) {
    own <= rules && forall i :: |own| <= i < |rules| ==> rules[i].owner != BOX
  }

  ghost predicate OwnIsBox(own: seq<Entry>) {
    forall e :: e in own ==> e.owner == BOX
  }

  lemma {:induction false} DroppedKeepsOwn(rules: seq<Entry>, own: seq<Entry>, entry: Entry)
    requires OwnIsBox(own) && OwnFirst(rules, own) && entry.owner != BOX
    ensures OwnFirst(Dropped(rules, entry), own)
    decreases |rules|
  {
    if |rules| > |own| {
      var init, last := rules[..|rules| - 1], rules[|rules| - 1];
      DroppedKeepsOwn(init, own, entry);
    } else {
      assert rules == own;
      DroppedAbsent(own, entry);
    }
  }

  lemma {:induction false} DroppedAbsent(rules: seq<Entry>, entry: Entry)
    requires entry !in rules
    ensures Dropped(rules, entry) == rules
  {
    if rules != [] {
      var init, last := rules[..|rules| - 1], rules[|rules| - 1];
      DroppedAbsent(init, entry);
      assert Dropped(rules, entry) == init + [last];
    }
  }

  lemma WrittenKeepsOwn(read: seq<Entry>, m: nat, f: File, e: Edit, own: seq<Entry>)
    requires m != BOX && OwnIsBox(own) && OwnFirst(read, own) && Writes(f, e)
    ensures OwnFirst(Written(read, m, f, e), own)
  {
    if e.RemoveOne? {
      DroppedKeepsOwn(read, own, Entry(m, f.relayRules[e.tag]));
    }
  }

  /** Everything read or standing begins with the rules of the box. */
  ghost predicate BoxKept(w: System, own: seq<Entry>) {
    OwnFirst(w.shared.rules, own) && forall m :: m in w.held ==> OwnFirst(w.held[m], own)
  }

  /** Over every run, races included, the rules the box was built with stay in front and in order. */
  lemma {:induction false} BoxRulesSurvive(w: System, acts: seq<Act>, own: seq<Entry>)
    requires OwnIsBox(own) && BoxKept(w, own) && forall a :: a in acts ==> a.m != BOX
    ensures BoxKept(Run(w, acts), own)
    decreases |acts|
  {
    if acts != [] {
      var init, a := acts[..|acts| - 1], acts[|acts| - 1];
      BoxRulesSurvive(w, init, own);
      var before := Run(w, init);
      if a.Set? && a.m in before.held && Writes(FileOf(before.shared, a.m), a.e) {
        WrittenKeepsOwn(before.held[a.m], a.m, FileOf(before.shared, a.m), a.e, own);
      }
    }
  }

  // ----- Runs without a lost write -----

  function EditAll(r: Router, edits: seq<Edit>): Router
    decreases |edits|
  {
    if edits == [] then r else Edited(EditAll(r, edits[..|edits| - 1]), edits[|edits| - 1])
  }

  lemma {:induction false} EditAllConcat(r: Router, a: seq<Edit>, b: seq<Edit>)
    ensures EditAll(r, a + b) == EditAll(EditAll(r, a), b)
    decreases |b|
  {
    if b == [] {
      assert a + b == a;
    } else {
      var n := |b| - 1;
      assert (a + b)[..|a + b| - 1] == a + b[..n] && (a + b)[|a + b| - 1] == b[n];
      EditAllConcat(r, a, b[..n]);
    }
  }

  /** The edits one manager makes in a run. */
  function EditsOf(acts: seq<Act>, m: nat): seq<Edit>
    decreases |acts|
  {
    if acts == [] then []
    else
      var init, a := EditsOf(acts[..|acts| - 1], m), acts[|acts| - 1];
      if a.Set? && a.m == m then init + [a.e] else init
  }

  ghost predicate SameParts(a: seq<Entry>, b: seq<Entry>) {
    forall k :: Of(a, k) == Of(b, k)
  }

  /** A write whose manager holds its lock, and between whose read and set nobody changed the list. */
  ghost predicate Undisturbed(w: System, a: Act) {
    a.Set? ==> a.m in w.held && (Writes(FileOf(w.shared, a.m), a.e) ==> SameParts(w.held[a.m], w.shared.rules))
  }

  ghost predicate NoneLost(w: System, acts: seq<Act>)
    decreases |acts|
  {
    acts != [] ==>
      NoneLost(w, acts[..|acts| - 1]) && Undisturbed(Run(w, acts[..|acts| - 1]), acts[|acts| - 1])
  }

  lemma StepOnView(w: System, a: Act, m: nat)
    requires Undisturbed(w, a)
    ensures View(Step(w, a).shared, m) ==
            if a.Set? && a.m == m then Edited(View(w.shared, m), a.e) else View(w.shared, m)
  {
    if a.Set? && Writes(FileOf(w.shared, a.m), a.e) {
      assert Of(w.held[a.m], m) == Of(w.shared.rules, m);
      if a.m == m {
        CommitOnOwnView(w.shared, m, w.held[m], a.e);
      } else {
        CommitKeepsOtherIff(w.shared, a.m, w.held[a.m], a.e, m);
      }
    }
  }

  /**
   With no write lost, every manager's view is what its own edits alone make of
   it, whatever the others do between.
   */
  lemma {:induction false} ViewsAreIndependent(w: System, acts: seq<Act>, m: nat)
    requires NoneLost(w, acts)
    ensures View(Run(w, acts).shared, m) == EditAll(View(w.shared, m), EditsOf(acts, m))
    decreases |acts|
  {
    if acts != [] {
      var init, a := acts[..|acts| - 1], acts[|acts| - 1];
      ViewsAreIndependent(w, init, m);
      StepOnView(Run(w, init), a, m);
      if a.Set? && a.m == m {
        EditAllConcat(View(w.shared, m), EditsOf(init, m), [a.e]);
        assert EditAll(EditAll(View(w.shared, m), EditsOf(init, m)), [a.e])
            == Edited(EditAll(View(w.shared, m), EditsOf(init, m)), a.e) by {
          assert [a.e][..0] == [];
        }
      }
    }
  }

  // ----- Where a connection goes -----

  /** The first rule of the shared list that matches a connection. */
  function RouteShared(rules: seq<Entry>, inbound: string, user: string): Option<RuleTag> {
    if rules == [] then None
    else
      var before := RouteShared(rules[..|rules| - 1], inbound, user);
      if before.Some? then before
      else if Matches(rules[|rules| - 1].rule, inbound, user) then Some(rules[|rules| - 1].rule.outbound)
      else None
  }

  /** Where no other owner's rule matches, a manager's part of the list decides. */
  lemma {:induction false} RouteThroughView(rules: seq<Entry>, m: nat, inbound: string, user: string)
    requires forall e :: e in rules && e.owner != m ==> !Matches(e.rule, inbound, user)
    ensures RouteShared(rules, inbound, user) == Route(Of(rules, m), inbound, user)
  {
    if rules != [] {
      var init, last := rules[..|rules| - 1], rules[|rules| - 1];
      RouteThroughView(init, m, inbound, user);
      assert last in rules;
      if last.owner == m {
        assert (Of(init, m) + [last.rule])[..|Of(init, m)|] == Of(init, m);
      }
    }
  }

  /** The rules of managers other than m, in a list, are not for this inbound. */
  ghost predicate OthersElsewhere(rules: seq<Entry>, m: nat, inbound: string) {
    forall e :: e in rules && e.owner != m && e.owner != BOX ==> e.rule.inbound != inbound
  }

  ghost predicate AllElsewhere(w: System, m: nat, inbound: string) {
    OthersElsewhere(w.shared.rules, m, inbound) && forall k :: k in w.held ==> OthersElsewhere(w.held[k], m, inbound)
  }

  /** The other managers add rules for inbounds of their own only. */
  ghost predicate OwnInbounds(acts: seq<Act>, m: nat, inbound: string) {
    forall a :: a in acts && a.Set? && a.e.AddOne? && a.m != m ==> a.e.mainTag != inbound
  }

  lemma {:induction false} DroppedMembers(rules: seq<Entry>, entry: Entry, x: Entry)
    ensures x in Dropped(rules, entry) ==> x in rules
  {
    if rules != [] {
      DroppedMembers(rules[..|rules| - 1], entry, x);
    }
  }

  lemma WrittenElsewhere(read: seq<Entry>, k: nat, f: File, e: Edit, m: nat, inbound: string)
    requires Writes(f, e) && OthersElsewhere(read, m, inbound)
    requires e.AddOne? && k != m ==> e.mainTag != inbound
    ensures OthersElsewhere(Written(read, k, f, e), m, inbound)
  {
    forall x | x in Written(read, k, f, e) && x.owner != m && x.owner != BOX ensures x.rule.inbound != inbound {
      if e.RemoveOne? { DroppedMembers(read, Entry(k, f.relayRules[e.tag]), x); }
    }
  }

  /** Over every run, races included, no other manager's rule is ever for this inbound. */
  lemma {:induction false} OthersStayElsewhere(w: System, acts: seq<Act>, m: nat, inbound: string)
    requires AllElsewhere(w, m, inbound) && OwnInbounds(acts, m, inbound)
    ensures AllElsewhere(Run(w, acts), m, inbound)
    decreases |acts|
  {
    if acts != [] {
      var init, a := acts[..|acts| - 1], acts[|acts| - 1];
      OthersStayElsewhere(w, init, m, inbound);
      var before := Run(w, init);
      if a.Set? && a.m in before.held && Writes(FileOf(before.shared, a.m), a.e) {
        assert a in acts;
        WrittenElsewhere(before.held[a.m], a.m, FileOf(before.shared, a.m), a.e, m, inbound);
      }
    }
  }

  // ----- A write that is lost, and a rule that comes back -----

  lemma RunMore(w: System, acts: seq<Act>, a: Act)
    ensures Run(w, acts + [a]) == Step(Run(w, acts), a)
  {
    assert (acts + [a])[..|acts|] == acts;
  }

  /**
   Two managers inside their critical sections at the same time: k writes first,
   and m from what it had read before.
   */
  function Race(m: nat, em: Edit, k: nat, ek: Edit): seq<Act> { [Read(m), Read(k)] + [Set(k, ek)] + [Set(m, em)] }

  lemma RaceOutcome(w: System, m: nat, em: Edit, k: nat, ek: Edit)
    requires m != k && Writes(FileOf(w.shared, m), em)
    ensures var w' := Run(w, Race(m, em, k, ek)).shared;
            && w'.rules == Written(w.shared.rules, m, FileOf(w.shared, m), em)
            && FileOf(w', k) == FileOf(Commit(w.shared, k, w.shared.rules, ek), k)
  {
    RunMore(w, [Read(m), Read(k)] + [Set(k, ek)], Set(m, em));
    RunMore(w, [Read(m), Read(k)], Set(k, ek));
    RunMore(w, [Read(m)], Read(k));
    RunMore(w, [], Read(m));
    assert [] + [Read(m)] == [Read(m)] && [Read(m)] + [Read(k)] == [Read(m), Read(k)];
  }

  /** From every state: the rule k added is on its file and not in the list. */
  lemma AddedRuleIsLost(w: System, m: nat, em: Edit, k: nat, mainTag: string, relayTag: string, s: Subscription)
    requires m != k && Writes(FileOf(w.shared, m), em)
    ensures var w' := Run(w, Race(m, em, k, AddOne(mainTag, relayTag, s))).shared;
            && RuleTag(relayTag, s.id) in FileOf(w', k).relayRules
            && Of(w'.rules, k) == Of(w.shared.rules, k)
            && View(w', k) != Edited(View(w.shared, k), AddOne(mainTag, relayTag, s))
  {
    RaceOutcome(w, m, em, k, AddOne(mainTag, relayTag, s));
    WrittenParts(w.shared.rules, m, FileOf(w.shared, m), em, k);
    var f := FileOf(w.shared, k);
    assert |Edited(View(w.shared, k), AddOne(mainTag, relayTag, s)).rules| == |Of(w.shared.rules, k)| + 1;
  }

  /**
   From every state with the rule on file: the one k removed is in the list again
   and on no file, so nobody will remove it.
   */
  lemma RemovedRuleReturns(w: System, m: nat, em: Edit, k: nat, tag: RuleTag)
    requires m != k && Writes(FileOf(w.shared, m), em) && tag in FileOf(w.shared, k).relayRules
    requires FileOf(w.shared, k).relayRules[tag] in Of(w.shared.rules, k)
    ensures var w' := Run(w, Race(m, em, k, RemoveOne(tag))).shared;
            && FileOf(w.shared, k).relayRules[tag] in Of(w'.rules, k)
            && tag !in FileOf(w', k).relayRules
  {
    RaceOutcome(w, m, em, k, RemoveOne(tag));
    WrittenParts(w.shared.rules, m, FileOf(w.shared, m), em, k);
  }

  // ----- Polls of several nodes -----

  /** The edits of RemoveRelayRules: up to the rule that cannot be removed. */
  function DropEdits(r: Router, relayTag: string, subs: seq<Subscription>, fail: int): seq<Edit>
    decreases |subs|
  {
    if subs == [] || (fail == 0 && RuleTag(relayTag, subs[0].id) in r.relayRules) then []
    else
      var tag := RuleTag(relayTag, subs[0].id);
      [RemoveOne(tag)] + DropEdits(RemoveRule(r, tag), relayTag, subs[1..], fail - 1)
  }

  function AddEdits(mainTag: string, relayTag: string, subs: seq<Subscription>): seq<Edit>
    decreases |subs|
  {
    if subs == [] then [] else [AddOne(mainTag, relayTag, subs[0])] + AddEdits(mainTag, relayTag, subs[1..])
  }

  lemma EditFirst(r: Router, e: Edit, rest: seq<Edit>)
    ensures EditAll(r, [e] + rest) == EditAll(Edited(r, e), rest)
  {
    EditAllConcat(r, [e], rest);
    assert [e][..0] == [];
    assert EditAll(r, [e]) == Edited(EditAll(r, []), e);
  }

  lemma {:induction false} DropEditsDrop(r: Router, relayTag: string, subs: seq<Subscription>, fail: int)
    ensures EditAll(r, DropEdits(r, relayTag, subs, fail)) == RemoveUpTo(r, relayTag, subs, fail).0
    decreases |subs|
  {
    if subs != [] && !(fail == 0 && RuleTag(relayTag, subs[0].id) in r.relayRules) {
      var tag := RuleTag(relayTag, subs[0].id);
      DropEditsDrop(RemoveRule(r, tag), relayTag, subs[1..], fail - 1);
      EditFirst(r, RemoveOne(tag), DropEdits(RemoveRule(r, tag), relayTag, subs[1..], fail - 1));
    }
  }

  lemma {:induction false} AddEditsAdd(r: Router, mainTag: string, relayTag: string, subs: seq<Subscription>)
    ensures EditAll(r, AddEdits(mainTag, relayTag, subs)) == AddRules(r, mainTag, relayTag, subs)
    decreases |subs|
  {
    if subs != [] {
      AddEditsAdd(AddRule(r, mainTag, relayTag, subs[0]), mainTag, relayTag, subs[1..]);
      EditFirst(r, AddOne(mainTag, relayTag, subs[0]), AddEdits(mainTag, relayTag, subs[1..]));
    }
  }

  function DownEdits(s: Side, p: Poll): seq<Edit> {
    if s.relay then DropEdits(s.router, s.relayTag, s.list, p.dropFail) else []
  }

  function UpEdits(s: Side, p: Poll, subs: seq<Subscription>): seq<Edit> {
    if s.relay || !StartsRelay(p, s.info) then []
    else AddEdits(s.tag, RelayTag(p.transit.value, s.info), if p.relayFail < |subs| then subs[..p.relayFail] else subs)
  }

  /** What a poll does to the router, edit by edit. */
  function PollEdits(s: Side, p: Poll): seq<Edit> {
    if Unanswered(p) || !Renews(p, s.info) then []
    else DownEdits(s, p) + if Aborts(p, s.info) then [] else UpEdits(Moved(s, p), p, ListAfter(p, s.list))
  }

  lemma PollIsItsEdits(s: Side, p: Poll)
    ensures EditAll(s.router, PollEdits(s, p)) == Polled(s, p).router
  {
    if !Unanswered(p) && Renews(p, s.info) {
      if s.relay {
        DropEditsDrop(s.router, s.relayTag, s.list, p.dropFail);
      }
      assert EditAll(s.router, DownEdits(s, p)) == TakenDown(s, p).router;
      var up := if Aborts(p, s.info) then [] else UpEdits(Moved(s, p), p, ListAfter(p, s.list));
      EditAllConcat(s.router, DownEdits(s, p), up);
      if !Aborts(p, s.info) {
        UpEditsSetUp(Moved(s, p), p, ListAfter(p, s.list));
      }
    }
  }

  lemma UpEditsSetUp(s: Side, p: Poll, subs: seq<Subscription>)
    ensures EditAll(s.router, UpEdits(s, p, subs)) == SetUp(s, p, subs).router
  {
    if !s.relay && StartsRelay(p, s.info) {
      AddEditsAdd(s.router, s.tag, RelayTag(p.transit.value, s.info),
                  if p.relayFail < |subs| then subs[..p.relayFail] else subs);
    }
  }

  function RunEdits(s: Side, polls: seq<Poll>): seq<Edit>
    decreases |polls|
  {
    if polls == [] then []
    else RunEdits(s, polls[..|polls| - 1]) + PollEdits(PollAll(s, polls[..|polls| - 1]), polls[|polls| - 1])
  }

  lemma {:induction false} RunIsItsEdits(s: Side, polls: seq<Poll>)
    ensures EditAll(s.router, RunEdits(s, polls)) == PollAll(s, polls).router
    decreases |polls|
  {
    if polls != [] {
      var init, p := polls[..|polls| - 1], polls[|polls| - 1];
      RunIsItsEdits(s, init);
      EditAllConcat(s.router, RunEdits(s, init), PollEdits(PollAll(s, init), p));
      PollIsItsEdits(PollAll(s, init), p);
    }
  }

  /**
   Several nodes on one box, their edits interleaved in any way, with no write lost:
   for a node that has finished its polls so far, wherever the others are, its rules
   in the shared list are one per current subscription when its relay is up, and none
   otherwise, exactly when none of its own polls left rules behind. The rules of the
   box stay in front and in order.
   */
  lemma NodesShareTheRouter(w: System, own: seq<Entry>, acts: seq<Act>, m: nat, s: Side, polls: seq<Poll>)
    requires OwnIsBox(own) && BoxKept(w, own) && (forall a :: a in acts ==> a.m != BOX)
    requires s.router == View(w.shared, m) && Reconciled(s, []) && UniqueIds(s.list) && ListsUnique(polls)
    requires NoneLost(w, acts) && EditsOf(acts, m) == RunEdits(s, polls)
    ensures var w', s' := Run(w, acts).shared, PollAll(s, polls);
            && OwnFirst(w'.rules, own)
            && s'.router == View(w', m)
            && (Reconciled(s', []) <==> !LeftRules(s, polls))
  {
    BoxRulesSurvive(w, acts, own);
    ViewsAreIndependent(w, acts, m);
    RunIsItsEdits(s, polls);
    ReconciledUnlessLeft(s, [], polls);
  }

  /** The nodes of a server have different ids, so a node tag of one is never one of another's. */
  lemma OtherNodesOtherTags(acts: seq<Act>, m: nat, ids: map<nat, int>, info: NodeInfo)
    requires m in ids && info.id == ids[m]
    requires forall j, k :: j in ids && k in ids && j != k ==> ids[j] != ids[k]
    requires forall a :: a in acts && a.Set? && a.e.AddOne? ==>
               a.m in ids && exists other: NodeInfo :: other.id == ids[a.m] && a.e.mainTag == NodeTag(other)
    ensures OwnInbounds(acts, m, NodeTag(info))
  {
    forall a | a in acts && a.Set? && a.e.AddOne? && a.m != m ensures a.e.mainTag != NodeTag(info) {
      var other: NodeInfo :| other.id == ids[a.m] && a.e.mainTag == NodeTag(other);
      NodeTagInjective(other, info);
    }
  }

  /** The shared list sends the connections of this node where they should go, and takes no other's. */
  ghost predicate Routes(rules: seq<Entry>, m: nat, s: Side, user: string) {
    && (forall sub :: Relays(s, s.tag, user, sub) ==>
          RouteShared(rules, s.tag, user) == Some(RuleTag(s.relayTag, sub.id)))
    && ((forall sub :: !Relays(s, s.tag, user, sub)) ==> RouteShared(rules, s.tag, user) == None)
    && (forall e :: e in rules && e.owner == m ==> e.rule.inbound == s.tag)
  }

  lemma OrderedViewRoutes(rules: seq<Entry>, m: nat, s: Side, user: string)
    requires Of(rules, m) == s.router.rules && Reconciled(s, []) && Proper(s.list) && OthersElsewhere(rules, m, s.tag)
    requires m != BOX && forall e :: e in rules && e.owner == BOX ==> !Matches(e.rule, s.tag, user)
    ensures Routes(rules, m, s, user)
  {
    RouteThroughView(rules, m, s.tag, user);
    RelayedToOwn(s, [], s.tag, user);
    forall e | e in rules && e.owner == m ensures e.rule.inbound == s.tag {
      OwnRuleIsHere(rules, s, e);
    }
  }

  lemma OwnRuleIsHere(rules: seq<Entry>, s: Side, e: Entry)
    requires e in rules && Of(rules, e.owner) == s.router.rules && Reconciled(s, [])
    ensures e.rule.inbound == s.tag
  {
    OwnRuleInView(rules, e);
    var i :| 0 <= i < |s.router.rules| && s.router.rules[i] == e.rule;
    RelayRuleAt(s, [], i);
  }

  /**
   Where connections go on a box with several nodes: once a node has finished its polls,
   none of which left rules behind, a connection that the box's own rules leave alone is
   sent, on the whole shared list, to its subscription's own relay outbound if it came
   in on this node and its user is on the current list, and past the rules of this node
   otherwise.
   */
  lemma ConnectionsFollowTheirNode(w: System, own: seq<Entry>, acts: seq<Act>, m: nat, s: Side, polls: seq<Poll>,
                                   user: string)
    requires OwnIsBox(own) && BoxKept(w, own) && m != BOX && (forall a :: a in acts ==> a.m != BOX)
    requires s.router == View(w.shared, m) && Reconciled(s, []) && UniqueIds(s.list) && ListsUnique(polls)
    requires NoneLost(w, acts) && EditsOf(acts, m) == RunEdits(s, polls) && !LeftRules(s, polls)
    requires var s' := PollAll(s, polls);
             && UniqueEmails(s'.list) && AllElsewhere(w, m, s'.tag) && OwnInbounds(acts, m, s'.tag)
             && forall e :: e in Run(w, acts).shared.rules && e.owner == BOX ==> !Matches(e.rule, s'.tag, user)
    ensures Routes(Run(w, acts).shared.rules, m, PollAll(s, polls), user)
  {
    NodesShareTheRouter(w, own, acts, m, s, polls);
    ReconciledUnlessLeft(s, [], polls);
    OthersStayElsewhere(w, acts, m, PollAll(s, polls).tag);
    OrderedViewRoutes(Run(w, acts).shared.rules, m, PollAll(s, polls), user);
  }

  lemma {:induction false} OwnRuleInView(rules: seq<Entry>, e: Entry)
    requires e in rules
    ensures e.rule in Of(rules, e.owner)
  {
    var init, last := rules[..|rules| - 1], rules[|rules| - 1];
    if e != last { OwnRuleInView(init, e); }
  }
}
