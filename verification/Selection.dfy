/** Which worker machines a recipe runs on, and how the names used for them later stay tied
    to the machines chosen. */
module Selection {
  import opened Ordering
  import opened Sorting
  import Strings
  import SshHosts

  datatype Result<T> = Ok(value: T) | Err(error: Error)

  datatype Error = TooFewEnrolled | WrongSelectorCount | Ambiguous(selector: string) | NotEnrolled(selector: string)
                 | AlreadySelected(selector: string) | NotEnoughHealthy

  datatype Node = Node(name: string, host: string, username: string, fingerprint: string, links: seq<string>, ips: seq<string>,
                       workerReady: bool, healthy: bool)

  /** `rest` is what selection leaves alone. */
  datatype Cluster = Cluster(configured: bool, healthy: bool, workerReady: bool, peerName: string, peerHost: string, username: string,
                             fingerprint: string, peerLinks: seq<string>, peerIPs: seq<string>, nodes: seq<Node>, nodeCount: int, rest: string)

  datatype Recipe = Recipe(nodes: int, selectors: seq<string>, workerAlias: string)

  function Required(r: Recipe): nat
  {
    if r.nodes <= 1 then 0 else r.nodes - 1
  }

  function Lower(c: char): char
  {
    if 'A' <= c <= 'Z' then c - 'A' + 'a' else c
  }

  predicate EqualFold(a: string, b: string)
  {
    |a| == |b| && forall i :: 0 <= i < |a| ==> Lower(a[i]) == Lower(b[i])
  }

  predicate Matches(selector: string, n: Node)
  {
    selector == n.fingerprint || EqualFold(selector, n.name) || EqualFold(selector, n.host)
  }

  function ByIdentity(): (Node, Node) -> bool
  {
    (a: Node, b: Node) => if a.fingerprint == b.fingerprint then Less(a.host, b.host) else Less(a.fingerprint, b.fingerprint)
  }

  function Usable(requireHealthy: bool): Node -> bool
  {
    (n: Node) => !requireHealthy || (n.healthy && n.workerReady)
  }

  /** The one node a selector names. */
  function Named(nodes: seq<Node>, selector: string): Result<Node>
  {
    var matching := FilterBy((n: Node) => Matches(selector, n), nodes);
    if |matching| > 1 then Err(Ambiguous(selector))
    else if matching == [] then Err(NotEnrolled(selector))
    else Ok(matching[0])
  }

  function AllNamed(nodes: seq<Node>, selectors: seq<string>): Result<seq<Node>>
  {
    if selectors == [] then Ok([]) else
      var last := selectors[|selectors| - 1];
      var earlier := AllNamed(nodes, selectors[..|selectors| - 1]);
      if earlier.Err? then earlier else
        match Named(nodes, last)
        case Err(e) => Err(e)
        case Ok(n) => if n in earlier.value then Err(AlreadySelected(last)) else Ok(earlier.value + [n])
  }

  /** Without selectors: the first usable ones by fingerprint and host. */
  function Automatic(nodes: seq<Node>, required: nat, requireHealthy: bool): Result<seq<Node>>
  {
    var usable := FilterBy(Usable(requireHealthy), SortBy(ByIdentity(), nodes));
    if |usable| < required then Err(NotEnoughHealthy) else Ok(usable[..required])
  }

  function Chosen(r: Recipe, nodes: seq<Node>, requireHealthy: bool): Result<seq<Node>>
  {
    if |nodes| < Required(r) then Err(TooFewEnrolled)
    else if r.selectors != [] && |r.selectors| != Required(r) then Err(WrongSelectorCount)
    else if r.selectors != [] then AllNamed(nodes, r.selectors)
    else Automatic(nodes, Required(r), requireHealthy)
  }

  /** The cluster as seen after choosing. */
  function Narrowed(c: Cluster, chosen: seq<Node>): Cluster
    requires chosen != []
  {
    c.(nodes := chosen, nodeCount := 1 + |chosen|,
       workerReady := forall i :: 0 <= i < |chosen| ==> chosen[i].workerReady,
       healthy := c.configured && forall i :: 0 <= i < |chosen| ==> chosen[i].healthy && chosen[i].workerReady,
       peerName := chosen[0].name, peerHost := chosen[0].host, username := chosen[0].username, fingerprint := chosen[0].fingerprint,
       peerLinks := chosen[0].links, peerIPs := chosen[0].ips)
  }

  lemma {:induction false} AllNamedAre(nodes: seq<Node>, selectors: seq<string>)
    requires AllNamed(nodes, selectors).Ok?
    ensures var chosen := AllNamed(nodes, selectors).value;
            && |chosen| == |selectors|
            && (forall i :: 0 <= i < |chosen| ==> Named(nodes, selectors[i]) == Ok(chosen[i]))
            && (forall i, j :: 0 <= i < j < |chosen| ==> chosen[i] != chosen[j])
  {
    if selectors != [] {
      AllNamedAre(nodes, selectors[..|selectors| - 1]);
    }
  }

  /** And the other way: names that all resolve, to different nodes, are all accepted. */
  lemma {:induction false} AllNamedFrom(nodes: seq<Node>, selectors: seq<string>, chosen: seq<Node>)
    requires |chosen| == |selectors|
    requires forall i :: 0 <= i < |chosen| ==> Named(nodes, selectors[i]) == Ok(chosen[i])
    requires forall i, j :: 0 <= i < j < |chosen| ==> chosen[i] != chosen[j]
    ensures AllNamed(nodes, selectors) == Ok(chosen)
  {
    if selectors != [] {
      var n := |selectors| - 1;
      AllNamedFrom(nodes, selectors[..n], chosen[..n]);
      assert chosen == chosen[..n] + [chosen[n]];
    }
  }

  predicate Letter(c: char)
  {
    'A' <= c <= 'Z' || 'a' <= c <= 'z'
  }

  /** Names are compared letter by letter, whatever the case. */
  lemma FoldsExactly(a: string, b: string)
    ensures EqualFold(a, b) <==> |a| == |b| && forall i :: 0 <= i < |a| ==>
              a[i] == b[i] || (Letter(a[i]) && Letter(b[i]) && (a[i] as int == b[i] as int + 32 || b[i] as int == a[i] as int + 32))
  {
    forall c: char, d: char
      ensures Lower(c) == Lower(d) <==> c == d || (Letter(c) && Letter(d) && (c as int == d as int + 32 || d as int == c as int + 32))
    {
    }
  }

  /** The selector is the fingerprint, the name or the host of this enrolled node, and of no
      other. */
  ghost predicate Picks(nodes: seq<Node>, selector: string, i: int)
  {
    && 0 <= i < |nodes|
    && (selector == nodes[i].fingerprint || EqualFold(selector, nodes[i].name) || EqualFold(selector, nodes[i].host))
    && forall j :: 0 <= j < |nodes| && j != i ==>
         selector != nodes[j].fingerprint && !EqualFold(selector, nodes[j].name) && !EqualFold(selector, nodes[j].host)
  }

  ghost predicate PicksSome(nodes: seq<Node>, selector: string)
  {
    exists i :: Picks(nodes, selector, i)
  }

  /** No node is picked by both. */
  ghost predicate Apart(nodes: seq<Node>, a: string, b: string)
  {
    forall i :: !(Picks(nodes, a, i) && Picks(nodes, b, i))
  }

  lemma NamedExactly(nodes: seq<Node>, selector: string)
    ensures Named(nodes, selector).Ok? <==> PicksSome(nodes, selector)
    ensures forall i :: Picks(nodes, selector, i) ==> Named(nodes, selector) == Ok(nodes[i])
    ensures Named(nodes, selector) == Err(NotEnrolled(selector)) <==> forall i :: 0 <= i < |nodes| ==> !Matches(selector, nodes[i])
  {
    var p := (n: Node) => Matches(selector, n);
    var k := FilterKeepsOne(p, nodes);
    FilterKeepsNone(p, nodes);
    forall i | 0 <= i < |nodes| ensures Picks(nodes, selector, i) <==> OnlyAt(p, nodes, i) {
      if OnlyAt(p, nodes, i) {
        forall j | 0 <= j < |nodes| && j != i ensures !Matches(selector, nodes[j]) { assert !p(nodes[j]); }
      }
    }
  }

  lemma {:induction false} AllNamedExactly(nodes: seq<Node>, selectors: seq<string>)
    ensures AllNamed(nodes, selectors).Ok? <==>
            && (forall k :: 0 <= k < |selectors| ==> Named(nodes, selectors[k]).Ok?)
            && (forall k, l :: 0 <= k < l < |selectors| ==> Named(nodes, selectors[k]) != Named(nodes, selectors[l]))
  {
    if selectors != [] {
      var most, last := selectors[..|selectors| - 1], selectors[|selectors| - 1];
      AllNamedExactly(nodes, most);
      assert selectors == most + [last];
      if AllNamed(nodes, most).Ok? {
        AllNamedAre(nodes, most);
        var chosen := AllNamed(nodes, most).value;
        if Named(nodes, last).Ok? {
          assert Named(nodes, last).value in chosen <==> exists k :: 0 <= k < |most| && Named(nodes, most[k]) == Named(nodes, last) by {
            if k :| 0 <= k < |most| && Named(nodes, most[k]) == Named(nodes, last) { assert chosen[k] == Named(nodes, last).value; }
            if k :| 0 <= k < |chosen| && chosen[k] == Named(nodes, last).value { assert Named(nodes, most[k]) == Ok(chosen[k]); }
          }
        }
      }
    }
  }

  /** A selection succeeds exactly when enough nodes are enrolled and, by name, there are as
      many selectors as nodes asked for and each picks a node of its own; or, without names,
      enough nodes are usable. */
  lemma ChosenSucceedsExactly(r: Recipe, nodes: seq<Node>, requireHealthy: bool)
    requires r.nodes > 1
    ensures Chosen(r, nodes, requireHealthy).Ok? <==>
            && |nodes| >= r.nodes - 1
            && if r.selectors != [] then
                 && |r.selectors| == r.nodes - 1
                 && (forall k :: 0 <= k < |r.selectors| ==> PicksSome(nodes, r.selectors[k]))
                 && (forall k, l :: 0 <= k < l < |r.selectors| ==> Apart(nodes, r.selectors[k], r.selectors[l]))
               else
                 |FilterBy((n: Node) => !requireHealthy || (n.healthy && n.workerReady), nodes)| >= r.nodes - 1
  {
    if r.selectors != [] {
      EachPicksItsOwn(nodes, r.selectors);
    } else {
      var sorted := SortBy(ByIdentity(), nodes);
      var p, q := Usable(requireHealthy), (n: Node) => !requireHealthy || (n.healthy && n.workerReady);
      ByIdentityOrders();
      SortByWorks(ByIdentity(), nodes);
      FilterIgnoresOrder(p, sorted, nodes);
      FilterAgrees(p, q, nodes);
      assert |multiset(FilterBy(p, sorted))| == |multiset(FilterBy(p, nodes))|;
    }
  }

  lemma EachPicksItsOwn(nodes: seq<Node>, selectors: seq<string>)
    ensures AllNamed(nodes, selectors).Ok? <==>
            && (forall k :: 0 <= k < |selectors| ==> PicksSome(nodes, selectors[k]))
            && (forall k, l :: 0 <= k < l < |selectors| ==> Apart(nodes, selectors[k], selectors[l]))
  {
    AllNamedExactly(nodes, selectors);
    forall k | 0 <= k < |selectors| ensures Named(nodes, selectors[k]).Ok? <==> PicksSome(nodes, selectors[k]) {
      NamedExactly(nodes, selectors[k]);
    }
    if forall k :: 0 <= k < |selectors| ==> Named(nodes, selectors[k]).Ok? {
      forall k, l | 0 <= k < l < |selectors|
        ensures Named(nodes, selectors[k]) != Named(nodes, selectors[l]) <==> Apart(nodes, selectors[k], selectors[l])
      {
        SamePick(nodes, selectors[k], selectors[l]);
      }
    }
  }

  /** Two selectors name the same node exactly when they pick the same place. */
  lemma SamePick(nodes: seq<Node>, a: string, b: string)
    requires Named(nodes, a).Ok? && Named(nodes, b).Ok?
    ensures Named(nodes, a) != Named(nodes, b) <==> Apart(nodes, a, b)
  {
    NamedExactly(nodes, a);
    NamedExactly(nodes, b);
    var i :| Picks(nodes, a, i);
    var j :| Picks(nodes, b, j);
    if i != j { assert !Matches(a, nodes[j]) && Matches(b, nodes[j]) && Matches(a, nodes[i]); }
  }

  lemma NamedMatches(nodes: seq<Node>, selector: string)
    requires Named(nodes, selector).Ok?
    ensures Named(nodes, selector).value in nodes && Matches(selector, Named(nodes, selector).value)
    ensures multiset(nodes)[Named(nodes, selector).value] == 1
    ensures forall m :: m in nodes && Matches(selector, m) ==> m == Named(nodes, selector).value
  {
    var p := (n: Node) => Matches(selector, n);
    var matching := FilterBy(p, nodes);
    var n := matching[0];
    assert matching == [n];
    FilterCounts(p, nodes, n);
    assert n in multiset(nodes);
    forall m | m in nodes && Matches(selector, m) ensures m == n {
      FilterCounts(p, nodes, m);
      assert m in multiset(nodes);
      assert m in multiset(matching);
    }
  }

  /** A selector that named a node among more names it among fewer. */
  lemma NamedAmongFewer(nodes: seq<Node>, fewer: seq<Node>, selector: string)
    requires Named(nodes, selector).Ok? && Named(nodes, selector).value in fewer
    requires multiset(fewer) <= multiset(nodes)
    ensures Named(fewer, selector) == Named(nodes, selector)
  {
    NamedMatches(nodes, selector);
    var n := Named(nodes, selector).value;
    var p := (m: Node) => Matches(selector, m);
    var matching := FilterBy(p, fewer);
    forall m ensures multiset(matching)[m] == multiset{n}[m] {
      FilterCounts(p, fewer, m);
      assert m in multiset(fewer) ==> m in multiset(nodes);
      assert n in multiset(fewer);
    }
    assert multiset(matching) == multiset{n};
    assert |matching| == |multiset(matching)| == 1;
    assert matching[0] in multiset(matching);
  }

  lemma ByIdentityOrders()
    ensures Orders(ByIdentity())
  {
    var less := ByIdentity();
    forall a, b, c ensures !less(a, a) && (less(a, b) && less(b, c) ==> less(a, c)) && (less(a, c) ==> less(a, b) || less(b, c)) {
      LessIrreflexive(a.fingerprint);
      LessIrreflexive(a.host);
      LessOrders(a.fingerprint, b.fingerprint, c.fingerprint);
      LessOrders(a.host, b.host, c.host);
      if a.fingerprint == c.fingerprint { LessOrders(a.fingerprint, b.fingerprint, a.fingerprint); }
    }
  }

  lemma LessOrders(a: string, b: string, c: string)
    ensures !Less(a, a) && (Less(a, b) && Less(b, c) ==> Less(a, c))
    ensures Less(a, c) ==> Less(a, b) || Less(b, c)
    ensures a == b || Less(a, b) || Less(b, a)
    ensures b == c || Less(b, c) || Less(c, b)
    ensures Less(b, a) && Less(a, c) ==> Less(b, c)
  {
    LessIrreflexive(a);
    LessTotal(a, b);
    LessTotal(b, c);
    if Less(a, b) && Less(b, c) { LessTransitive(a, b, c); }
    if Less(b, a) && Less(a, c) { LessTransitive(b, a, c); }
  }

  /** The choice has exactly the nodes asked for, at different places of the enrolment. */
  lemma ChosenAreEnrolled(r: Recipe, nodes: seq<Node>, requireHealthy: bool)
    requires Chosen(r, nodes, requireHealthy).Ok?
    ensures var chosen := Chosen(r, nodes, requireHealthy).value;
            |chosen| == Required(r) && multiset(chosen) <= multiset(nodes)
    ensures r.selectors == [] && requireHealthy ==>
              forall n :: n in Chosen(r, nodes, requireHealthy).value ==> n.healthy && n.workerReady
  {
    var chosen := Chosen(r, nodes, requireHealthy).value;
    if r.selectors != [] {
      AllNamedAre(nodes, r.selectors);
      DistinctAreWithin(chosen, nodes) by {
        forall i | 0 <= i < |chosen| ensures chosen[i] in nodes { NamedMatches(nodes, r.selectors[i]); }
      }
    } else {
      var sorted := SortBy(ByIdentity(), nodes);
      ByIdentityOrders();
      SortByWorks(ByIdentity(), nodes);
      var p := Usable(requireHealthy);
      var usable := FilterBy(p, sorted);
      assert usable == chosen + usable[Required(r)..];
      forall n ensures multiset(chosen)[n] <= multiset(nodes)[n] && (n in chosen ==> p(n)) {
        FilterCounts(p, sorted, n);
        assert multiset(usable) == multiset(chosen) + multiset(usable[Required(r)..]);
        assert n in chosen ==> n in multiset(usable);
      }
    }
  }

  lemma {:induction false} DistinctAreWithin(some: seq<Node>, all: seq<Node>)
    requires forall i, j :: 0 <= i < j < |some| ==> some[i] != some[j]
    requires forall i :: 0 <= i < |some| ==> some[i] in all
    ensures multiset(some) <= multiset(all)
  {
    if some != [] {
      var n := |some| - 1;
      DistinctAreWithin(some[..n], all);
      assert some == some[..n] + [some[n]];
      assert some[n] !in some[..n] && some[n] in multiset(all);
    }
  }

  /** Automatic placement takes the first usable machines: none left out precedes one taken. */
  lemma AutomaticTakesFirst(nodes: seq<Node>, required: nat, requireHealthy: bool, taken: Node, left: Node)
    requires Automatic(nodes, required, requireHealthy).Ok?
    requires taken in Automatic(nodes, required, requireHealthy).value
    requires left in multiset(nodes) - multiset(Automatic(nodes, required, requireHealthy).value) && Usable(requireHealthy)(left)
    ensures !ByIdentity()(left, taken)
  {
    var p := Usable(requireHealthy);
    var sorted := SortBy(ByIdentity(), nodes);
    UsableInOrder(nodes, requireHealthy);
    FilterCounts(p, sorted, left);
    LaterIsNotLess(ByIdentity(), FilterBy(p, sorted), required, taken, left);
  }

  lemma UsableInOrder(nodes: seq<Node>, requireHealthy: bool)
    ensures multiset(SortBy(ByIdentity(), nodes)) == multiset(nodes)
    ensures SortedBy(ByIdentity(), FilterBy(Usable(requireHealthy), SortBy(ByIdentity(), nodes)))
  {
    ByIdentityOrders();
    SortByWorks(ByIdentity(), nodes);
    FilterKeepsSorted(ByIdentity(), Usable(requireHealthy), SortBy(ByIdentity(), nodes));
  }

  lemma LaterIsNotLess(less: (Node, Node) -> bool, s: seq<Node>, k: nat, early: Node, late: Node)
    requires SortedBy(less, s) && k <= |s| && early in s[..k] && multiset(s)[late] > multiset(s[..k])[late]
    ensures !less(late, early)
  {
    assert s == s[..k] + s[k..];
    assert late in multiset(s[k..]);
    var i :| 0 <= i < k && s[..k][i] == early;
    var j :| 0 <= j < |s| - k && s[k..][j] == late;
    assert !less(s[k + j], s[i]);
  }

  /** Choosing again among the chosen chooses them again, in the same order; the second time
      may ask for less health than the first, not for more. */
  lemma ChosenAgain(r: Recipe, nodes: seq<Node>, first: bool, second: bool)
    requires Chosen(r, nodes, first).Ok? && Required(r) > 0 && (first || !second || r.selectors != [])
    ensures Chosen(r, Chosen(r, nodes, first).value, second) == Chosen(r, nodes, first)
  {
    ChosenAreEnrolled(r, nodes, first);
    if r.selectors != [] {
      AllNamedAgain(nodes, r.selectors);
    } else {
      AutomaticAgain(nodes, Required(r), first, second);
    }
  }

  lemma AllNamedAgain(nodes: seq<Node>, selectors: seq<string>)
    requires AllNamed(nodes, selectors).Ok? && multiset(AllNamed(nodes, selectors).value) <= multiset(nodes)
    ensures AllNamed(AllNamed(nodes, selectors).value, selectors) == AllNamed(nodes, selectors)
  {
    var chosen := AllNamed(nodes, selectors).value;
    AllNamedAre(nodes, selectors);
    forall i | 0 <= i < |chosen| ensures Named(chosen, selectors[i]) == Ok(chosen[i]) {
      NamedAmongFewer(nodes, chosen, selectors[i]);
    }
    AllNamedFrom(chosen, selectors, chosen);
  }

  lemma AutomaticAgain(nodes: seq<Node>, required: nat, first: bool, second: bool)
    requires Automatic(nodes, required, first).Ok? && (first || !second)
    ensures Automatic(Automatic(nodes, required, first).value, required, second) == Automatic(nodes, required, first)
  {
    var chosen := Automatic(nodes, required, first).value;
    var sorted := SortBy(ByIdentity(), nodes);
    UsableInOrder(nodes, first);
    var usable := FilterBy(Usable(first), sorted);
    assert SortedBy(ByIdentity(), chosen);
    SortKeepsSorted(ByIdentity(), chosen);
    forall i | 0 <= i < |chosen| ensures Usable(second)(chosen[i]) {
      assert chosen[i] == usable[i] && usable[i] in multiset(usable);
      FilterCounts(Usable(first), sorted, chosen[i]);
    }
    FilterKeepsAll(Usable(second), chosen);
    assert chosen[..required] == chosen;
  }

  lemma NamedIgnoresOrder(a: seq<Node>, b: seq<Node>, selector: string)
    requires multiset(a) == multiset(b)
    ensures Named(a, selector) == Named(b, selector)
  {
    var p := (n: Node) => Matches(selector, n);
    FilterIgnoresOrder(p, a, b);
    var ma, mb := FilterBy(p, a), FilterBy(p, b);
    assert |ma| == |multiset(ma)| == |multiset(mb)| == |mb|;
    if |ma| == 1 {
      assert ma[0] in multiset(mb);
      assert ma == [ma[0]] && mb == [mb[0]];
    }
  }

  lemma {:induction false} AllNamedIgnoresOrder(a: seq<Node>, b: seq<Node>, selectors: seq<string>)
    requires multiset(a) == multiset(b)
    ensures AllNamed(a, selectors) == AllNamed(b, selectors)
  {
    if selectors != [] {
      AllNamedIgnoresOrder(a, b, selectors[..|selectors| - 1]);
      NamedIgnoresOrder(a, b, selectors[|selectors| - 1]);
    }
  }

  /** The order of enrolment does not matter: never with selectors, and for automatic
      placement when no two different machines share fingerprint and host. */
  lemma ChosenIgnoresOrder(r: Recipe, a: seq<Node>, b: seq<Node>, requireHealthy: bool)
    requires multiset(a) == multiset(b)
    requires r.selectors != [] || Separates(ByIdentity(), multiset(a))
    ensures Chosen(r, a, requireHealthy) == Chosen(r, b, requireHealthy)
  {
    assert |a| == |multiset(a)| == |multiset(b)| == |b|;
    AllNamedIgnoresOrder(a, b, r.selectors);
    ByIdentityOrders();
    if r.selectors == [] { SortIgnoresOrder(ByIdentity(), a, b); }
  }

  /** Of two machines that do share them, the one enrolled first is taken. */
  lemma TiesGoByOrder(x: Node, y: Node, requireHealthy: bool)
    requires x.fingerprint == y.fingerprint && x.host == y.host && Usable(requireHealthy)(x)
    ensures Automatic([x, y], 1, requireHealthy) == Ok([x])
  {
    LessIrreflexive(x.host);
    assert SortBy(ByIdentity(), [y]) == [y];
    assert SortBy(ByIdentity(), [x, y]) == [x, y];
  }

  /** What selection answers. */
  function Selected(r: Recipe, c: Cluster, requireHealthy: bool): Result<Cluster>
  {
    if Required(r) == 0 then Ok(c.(nodes := [], nodeCount := 1, workerReady := true, healthy := true))
    else match Chosen(r, c.nodes, requireHealthy)
      case Err(e) => Err(e)
      case Ok(chosen) =>
        ChosenAreEnrolled(r, c.nodes, requireHealthy);
        Ok(Narrowed(c, chosen))
  }

  /** What a selection says: how many machines take part, whether all its workers are ready
      and healthy, and how to reach the first of them. */
  lemma SelectionSays(r: Recipe, c: Cluster, requireHealthy: bool)
    requires Selected(r, c, requireHealthy).Ok?
    ensures var s := Selected(r, c, requireHealthy).value;
            && s.nodeCount == (if r.nodes > 1 then r.nodes else 1) == |s.nodes| + 1
            && (s.workerReady <==> forall n :: n in s.nodes ==> n.workerReady)
            && (s.healthy <==> r.nodes <= 1 || (c.configured && forall n :: n in s.nodes ==> n.healthy && n.workerReady))
            && (s.nodes != [] ==>
                  var n := s.nodes[0];
                  (s.peerName, s.peerHost, s.username, s.fingerprint, s.peerLinks, s.peerIPs) == (n.name, n.host, n.username, n.fingerprint, n.links, n.ips))
            && s.configured == c.configured && s.rest == c.rest
  {
    var s := Selected(r, c, requireHealthy).value;
    if r.nodes > 1 {
      ChosenAreEnrolled(r, c.nodes, requireHealthy);
      assert forall i :: 0 <= i < |s.nodes| ==> s.nodes[i] in s.nodes;
    }
  }

  /** Selecting from a selection gives the same selection, every field of it. */
  lemma SelectedAgain(r: Recipe, c: Cluster, first: bool, second: bool)
    requires Selected(r, c, first).Ok? && (first || !second || r.selectors != [])
    ensures Selected(r, Selected(r, c, first).value, second) == Selected(r, c, first)
  {
    if Required(r) > 0 { ChosenAgain(r, c.nodes, first, second); }
  }

  /** The scan for the machines a selector matches, which stops at a second one. */
  method FindMatch(nodes: seq<Node>, selector: string) returns (matched: Result<nat>)
    ensures matched.Ok? ==> matched.value < |nodes| && Named(nodes, selector) == Ok(nodes[matched.value])
    ensures matched.Err? ==> Named(nodes, selector) == Err(matched.error)
    ensures matched.Ok? ==> forall k :: 0 <= k < |nodes| && Matches(selector, nodes[k]) ==> k == matched.value
  {
    var found: int := -1;
    ghost var p := (n: Node) => Matches(selector, n);
    for i := 0 to |nodes|
      invariant -1 <= found < i
      invariant FilterBy(p, nodes[..i]) == if found < 0 then [] else [nodes[found]]
      invariant forall k :: 0 <= k < i && Matches(selector, nodes[k]) ==> k == found
    {
      FilterAppends(p, nodes[..i], nodes[i]);
      assert nodes[..i + 1] == nodes[..i] + [nodes[i]];
      if Matches(selector, nodes[i]) {
        if found >= 0 {
          MoreStayMore(p, nodes, i + 1);
          return Err(Ambiguous(selector));
        }
        found := i;
      }
    }
    assert nodes[..|nodes|] == nodes;
    matched := if found < 0 then Err(NotEnrolled(selector)) else Ok(found);
  }

  lemma {:induction false} MoreStayMore(p: Node -> bool, nodes: seq<Node>, i: nat)
    requires i <= |nodes|
    ensures |FilterBy(p, nodes[..i])| <= |FilterBy(p, nodes)|
    decreases |nodes| - i
  {
    if i < |nodes| {
      FilterAppends(p, nodes[..i], nodes[i]);
      assert nodes[..i + 1] == nodes[..i] + [nodes[i]];
      MoreStayMore(p, nodes, i + 1);
    } else {
      assert nodes[..i] == nodes;
    }
  }

  /** The selectors one by one; a machine is known by its index. */
  method ChooseNamed(nodes: seq<Node>, selectors: seq<string>) returns (chosen: Result<seq<Node>>)
    ensures chosen == AllNamed(nodes, selectors)
  {
    var nodesChosen: seq<Node> := [];
    var used: set<nat> := {};
    for i := 0 to |selectors|
      invariant AllNamed(nodes, selectors[..i]) == Ok(nodesChosen)
      invariant forall k :: k in used ==> k < |nodes| && nodes[k] in nodesChosen
      invariant forall n :: n in nodesChosen ==> exists k :: k in used && nodes[k] == n
    {
      assert selectors[..i + 1][..i] == selectors[..i];
      var matched := FindMatch(nodes, selectors[i]);
      if matched.Err? || matched.value in used {
        FirstErrorStays(nodes, selectors, i + 1);
        return if matched.Err? then Err(matched.error) else Err(AlreadySelected(selectors[i]));
      }
      NamedMatches(nodes, selectors[i]);
      assert nodes[matched.value] !in nodesChosen;
      used := used + {matched.value};
      nodesChosen := nodesChosen + [nodes[matched.value]];
    }
    assert selectors[..|selectors|] == selectors;
    chosen := Ok(nodesChosen);
  }

  lemma {:induction false} FirstErrorStays(nodes: seq<Node>, selectors: seq<string>, i: nat)
    requires i <= |selectors| && AllNamed(nodes, selectors[..i]).Err?
    ensures AllNamed(nodes, selectors) == AllNamed(nodes, selectors[..i])
    decreases |selectors|
  {
    if i < |selectors| {
      var shorter := selectors[..|selectors| - 1];
      assert shorter[..i] == selectors[..i];
      FirstErrorStays(nodes, shorter, i);
    } else {
      assert selectors[..i] == selectors;
    }
  }

  /** The first usable candidates in order. */
  method ChooseAutomatic(nodes: seq<Node>, required: nat, requireHealthy: bool) returns (chosen: Result<seq<Node>>)
    requires required > 0
    ensures chosen == Automatic(nodes, required, requireHealthy)
  {
    var candidates := SortBy(ByIdentity(), nodes);
    ghost var p := Usable(requireHealthy);
    var taken: seq<Node> := [];
    for i := 0 to |candidates|
      invariant taken == FilterBy(p, candidates[..i]) && |taken| < required
    {
      FilterAppends(p, candidates[..i], candidates[i]);
      assert candidates[..i + 1] == candidates[..i] + [candidates[i]];
      if !requireHealthy || (candidates[i].healthy && candidates[i].workerReady) {
        taken := taken + [candidates[i]];
        if |taken| == required {
          FilterStarts(p, candidates, i + 1);
          assert taken == FilterBy(p, candidates)[..required];
          return Ok(taken);
        }
      }
    }
    assert candidates[..|candidates|] == candidates;
    chosen := Err(NotEnoughHealthy);
  }

  lemma {:induction false} FilterStarts(p: Node -> bool, nodes: seq<Node>, i: nat)
    requires i <= |nodes|
    ensures FilterBy(p, nodes[..i]) <= FilterBy(p, nodes)
    decreases |nodes| - i
  {
    if i < |nodes| {
      FilterAppends(p, nodes[..i], nodes[i]);
      assert nodes[..i + 1] == nodes[..i] + [nodes[i]];
      FilterStarts(p, nodes, i + 1);
    } else {
      assert nodes[..i] == nodes;
    }
  }

  method SelectCluster(r: Recipe, c: Cluster, requireHealthy: bool) returns (selected: Result<Cluster>)
    ensures selected == Selected(r, c, requireHealthy)
  {
    var required := Required(r);
    if required == 0 { return Ok(c.(nodes := [], nodeCount := 1, workerReady := true, healthy := true)); }
    if |c.nodes| < required { return Err(TooFewEnrolled); }
    if r.selectors != [] && |r.selectors| != required { return Err(WrongSelectorCount); }
    var chosen;
    if r.selectors != [] {
      chosen := ChooseNamed(c.nodes, r.selectors);
    } else {
      chosen := ChooseAutomatic(c.nodes, required, requireHealthy);
    }
    if chosen.Err? { return Err(chosen.error); }
    ChosenAreEnrolled(r, c.nodes, requireHealthy);
    var narrowed := Narrow(c, chosen.value);
    selected := Ok(narrowed);
  }

  method Narrow(c: Cluster, nodes: seq<Node>) returns (narrowed: Cluster)
    requires nodes != []
    ensures narrowed == Narrowed(c, nodes)
  {
    var workerReady, healthy := true, c.configured;
    for i := 0 to |nodes|
      invariant workerReady == forall k :: 0 <= k < i ==> nodes[k].workerReady
      invariant healthy == (c.configured && forall k :: 0 <= k < i ==> nodes[k].healthy && nodes[k].workerReady)
    {
      workerReady := workerReady && nodes[i].workerReady;
      healthy := healthy && nodes[i].healthy && nodes[i].workerReady;
    }
    narrowed := c.(nodes := nodes, nodeCount := 1 + |nodes|, workerReady := workerReady, healthy := healthy,
                   peerName := nodes[0].name, peerHost := nodes[0].host, username := nodes[0].username,
                   fingerprint := nodes[0].fingerprint, peerLinks := nodes[0].links, peerIPs := nodes[0].ips);
  }

  // The names the chosen machines get.

  function AliasOf(workerAlias: string, k: nat): string
  {
    if k == 0 then workerAlias else workerAlias + "-" + Strings.Decimal(k + 1)
  }

  function Aliases(workerAlias: string, n: nat): (r: seq<string>)
    ensures |r| == n
  {
    seq(n, k requires 0 <= k < n => AliasOf(workerAlias, k))
  }

  function JoinCommas(words: seq<string>): string
  {
    if words == [] then "" else if |words| == 1 then words[0] else words[0] + "," + JoinCommas(words[1..])
  }

  function SplitCommas(s: string): (r: seq<string>)
    ensures |r| > 0
  {
    if s == "" then [""]
    else if s[0] == ',' then [""] + SplitCommas(s[1..])
    else var rest := SplitCommas(s[1..]); [[s[0]] + rest[0]] + rest[1..]
  }

  function Trimmed(words: seq<string>): (r: seq<string>)
    ensures |r| == |words|
  {
    seq(|words|, k requires 0 <= k < |words| => Strings.TrimSpace(words[k]))
  }

  /** The peers' names, as read back from the environment; None stands for an error. */
  method PeerAliases(workerHosts: string, nodes: seq<Node>) returns (peers: Strings.Option<seq<string>>)
    ensures peers.Some? <==> var words := SplitCommas(Strings.TrimSpace(workerHosts)); |words| == |nodes| && "" !in Trimmed(words)
    ensures peers.Some? ==> peers.value == Trimmed(SplitCommas(Strings.TrimSpace(workerHosts)))
  {
    var words := SplitCommas(Strings.TrimSpace(workerHosts));
    if |words| != |nodes| { return Strings.None; }
    var read: seq<string> := [];
    for i := 0 to |words|
      invariant read == Trimmed(words)[..i] && "" !in read
    {
      var alias := Strings.TrimSpace(words[i]);
      if alias == "" {
        assert Trimmed(words)[i] == "";
        return Strings.None;
      }
      read := read + [alias];
    }
    assert read == Trimmed(words);
    peers := Strings.Some(read);
  }

  /** The names peers are contacted by when the environment carries the names as written. */
  function PeerNames(workerAlias: string, n: nat): seq<string>
  {
    Trimmed(SplitCommas(Strings.TrimSpace(JoinCommas(Aliases(workerAlias, n)))))
  }

  predicate Clean(s: string)
  {
    s != "" && ',' !in s && !Strings.IsSpace(s[0]) && !Strings.IsSpace(s[|s| - 1])
  }

  lemma {:induction false} DigitsAreDigits(n: nat)
    ensures Strings.Digits(n) != "" && forall i :: 0 <= i < |Strings.Digits(n)| ==> '0' <= Strings.Digits(n)[i] <= '9'
  {
    if n >= 10 { DigitsAreDigits(n / 10); }
  }

  /** Different places have different names. */
  lemma AliasesDiffer(workerAlias: string, i: nat, j: nat)
    requires AliasOf(workerAlias, i) == AliasOf(workerAlias, j)
    ensures i == j
  {
    Strings.DecimalReads(i + 1);
    Strings.DecimalReads(j + 1);
    if i > 0 && j > 0 {
      var n := |workerAlias| + 1;
      assert AliasOf(workerAlias, i)[n..] == Strings.Decimal(i + 1);
      assert AliasOf(workerAlias, j)[n..] == Strings.Decimal(j + 1);
    }
  }

  lemma {:induction false} SplitWord(word: string, rest: string)
    requires ',' !in word
    ensures SplitCommas(word) == [word]
    ensures SplitCommas(word + "," + rest) == [word] + SplitCommas(rest)
  {
    var s := word + "," + rest;
    if word == "" {
      assert s[1..] == rest;
    } else {
      assert s[1..] == word[1..] + "," + rest;
      SplitWord(word[1..], rest);
      assert [word[0]] + word[1..] == word;
    }
  }

  lemma {:induction false} SplitJoin(words: seq<string>)
    requires words != [] && forall i :: 0 <= i < |words| ==> ',' !in words[i]
    ensures SplitCommas(JoinCommas(words)) == words
  {
    if |words| == 1 {
      SplitWord(words[0], "");
    } else {
      SplitJoin(words[1..]);
      SplitWord(words[0], JoinCommas(words[1..]));
    }
  }

  /** A comma in the configured name makes two names of one, and the launch is refused. */
  lemma CommaExample()
    ensures SplitCommas(Strings.TrimSpace(JoinCommas(Aliases("a,b", 1)))) == ["a", "b"]
    ensures PeerNames("a,b", 1) != Aliases("a,b", 1)
  {
    assert Aliases("a,b", 1) == ["a,b"] && JoinCommas(["a,b"]) == "a" + "," + "b";
    assert Strings.TrimSpace("a" + "," + "b") == "a" + "," + "b";
    SplitWord("a", "b");
    SplitWord("b", "");
    assert |PeerNames("a,b", 1)| == 2;
  }

  // ---------------------------------------------------------------- from names to machines

  function Commas(s: string): nat
  {
    if s == "" then 0 else (if s[0] == ',' then 1 else 0) + Commas(s[1..])
  }

  lemma {:induction false} SplitCounts(s: string)
    ensures |SplitCommas(s)| == Commas(s) + 1
  {
    if s != "" { SplitCounts(s[1..]); }
  }

  lemma {:induction false} CommasAdd(a: string, b: string)
    ensures Commas(a + b) == Commas(a) + Commas(b)
  {
    if a == "" {
      assert a + b == b;
    } else {
      assert (a + b)[1..] == a[1..] + b;
      CommasAdd(a[1..], b);
    }
  }

  lemma {:induction false} CommaCounts(s: string)
    requires ',' in s
    ensures Commas(s) > 0
  {
    if s[0] != ',' { CommaCounts(s[1..]); }
  }

  lemma {:induction false} TrimKeepsCommas(s: string)
    ensures Commas(Strings.TrimSpace(s)) == Commas(s)
    decreases |s|
  {
    if s != "" && Strings.IsSpace(s[0]) {
      TrimKeepsCommas(s[1..]);
    } else if s != "" && Strings.IsSpace(s[|s| - 1]) {
      var n := |s| - 1;
      TrimKeepsCommas(s[..n]);
      CommasAdd(s[..n], s[n..]);
      assert s == s[..n] + s[n..];
    }
  }

  lemma {:induction false} JoinCounts(words: seq<string>)
    requires words != [] && forall i :: 0 <= i < |words| ==> ',' in words[i]
    ensures Commas(JoinCommas(words)) >= 2 * |words| - 1
  {
    CommaCounts(words[0]);
    if |words| > 1 {
      JoinCounts(words[1..]);
      var rest := JoinCommas(words[1..]);
      assert words[0] + "," + rest == words[0] + ("," + rest);
      CommasAdd(words[0], "," + rest);
      assert ("," + rest)[1..] == rest;
    }
  }

  /** With a comma in the configured name there are more names than peers. */
  lemma CommaMakesMore(workerAlias: string, n: nat)
    requires ',' in workerAlias && n > 0
    ensures |PeerNames(workerAlias, n)| > n
  {
    var joined := JoinCommas(Aliases(workerAlias, n));
    JoinCounts(Aliases(workerAlias, n));
    TrimKeepsCommas(joined);
    SplitCounts(Strings.TrimSpace(joined));
  }

  lemma {:induction false} BlankInFront(c: char, s: string)
    requires Strings.IsSpace(c)
    ensures Trimmed(SplitCommas([c] + s)) == Trimmed(SplitCommas(s))
  {
    var words := SplitCommas(s);
    assert ([c] + s)[1..] == s;
    assert SplitCommas([c] + s) == [[c] + words[0]] + words[1..];
    assert ([c] + words[0])[1..] == words[0];
    assert Strings.TrimSpace([c] + words[0]) == Strings.TrimSpace(words[0]);
  }

  lemma TrimIgnoresEnd(s: string, c: char)
    requires Strings.IsSpace(c)
    ensures Strings.TrimSpace(s + [c]) == Strings.TrimSpace(s)
  {
    var i, j := SshHosts.TrimParts(s);
    BlankAppended(s, c, i, j);
    SshHosts.TrimmedParts(s[..i], s[i..j], s[j..] + [c]);
  }

  lemma BlankAppended(s: string, c: char, i: nat, j: nat)
    requires i <= j <= |s| && Strings.IsSpace(c) && forall k :: 0 <= k < i || j <= k < |s| ==> Strings.IsSpace(s[k])
    ensures s + [c] == s[..i] + s[i..j] + (s[j..] + [c]) && SshHosts.Blank(s[..i]) && SshHosts.Blank(s[j..] + [c])
  {
  }

  lemma {:induction false} LastWordLonger(s: string, c: char)
    requires c != ','
    ensures var words := SplitCommas(s); var n := |words| - 1; SplitCommas(s + [c]) == words[..n] + [words[n] + [c]]
  {
    if s == "" {
      assert s + [c] == [c] && [c][1..] == "";
      assert SplitCommas("") == [""] && [c] + "" == [c];
      assert SplitCommas([c]) == [[c] + ""] + [""][1..];
    } else {
      assert (s + [c])[1..] == s[1..] + [c];
      LastWordLonger(s[1..], c);
      var words, longer := SplitCommas(s[1..]), SplitCommas(s[1..] + [c]);
      if s[0] != ',' && |words| == 1 {
        assert SplitCommas(s) == [[s[0]] + words[0]];
        assert [s[0]] + (words[0] + [c]) == ([s[0]] + words[0]) + [c];
      } else if s[0] != ',' {
        assert longer[0] == words[0];
        assert longer[1..] == words[1..][..|words| - 2] + [words[|words| - 1] + [c]];
      }
    }
  }

  lemma BlankBehind(s: string, c: char)
    requires Strings.IsSpace(c)
    ensures Trimmed(SplitCommas(s + [c])) == Trimmed(SplitCommas(s))
  {
    LastWordLonger(s, c);
    var words := SplitCommas(s);
    TrimIgnoresEnd(words[|words| - 1], c);
  }

  /** Blanks at the ends of a list belong to its first and last word. */
  lemma {:induction false} TrimmedAnyway(s: string)
    ensures Trimmed(SplitCommas(Strings.TrimSpace(s))) == Trimmed(SplitCommas(s))
    decreases |s|
  {
    if s != "" && Strings.IsSpace(s[0]) {
      TrimmedAnyway(s[1..]);
      BlankInFront(s[0], s[1..]);
      assert s == [s[0]] + s[1..];
    } else if s != "" && Strings.IsSpace(s[|s| - 1]) {
      var n := |s| - 1;
      TrimmedAnyway(s[..n]);
      BlankBehind(s[..n], s[n]);
      assert s == s[..n] + [s[n]];
    }
  }

  lemma NamesAreTrimmed(workerAlias: string, n: nat)
    requires ',' !in workerAlias && n > 0
    ensures PeerNames(workerAlias, n) == Trimmed(Aliases(workerAlias, n))
  {
    var aliases := Aliases(workerAlias, n);
    forall k | 0 <= k < n ensures ',' !in aliases[k] { DigitsAreDigits(k + 1); }
    TrimmedAnyway(JoinCommas(aliases));
    SplitJoin(aliases);
  }

  /** The names come back as they were written, exactly when the configured worker name has
      no comma and no space at its ends. */
  lemma NamesComeBackExactly(workerAlias: string, n: nat)
    requires workerAlias != "" && n > 0
    ensures PeerNames(workerAlias, n) == Aliases(workerAlias, n) <==> Clean(workerAlias)
  {
    var aliases := Aliases(workerAlias, n);
    if ',' in workerAlias {
      CommaMakesMore(workerAlias, n);
    } else {
      NamesAreTrimmed(workerAlias, n);
      assert Trimmed(aliases)[0] == Strings.TrimSpace(workerAlias);
      forall k | 0 <= k < n && Clean(workerAlias) ensures Trimmed(aliases)[k] == aliases[k] {
        AliasParts(workerAlias, k);
        SuffixIsPlain(k);
      }
    }
  }

  /** The stanza by which the k-th of n peers is contacted: the names are written one to a
      stanza, read back from the environment and given to ssh. */
  function Contacted(workerAlias: string, n: nat, k: nat): Strings.Option<nat>
    requires k < n
  {
    var names := PeerNames(workerAlias, n);
    if |names| != n || "" in names then Strings.None
    else
      var host := SshHosts.HostIn(names[k]);
      if host.None? then Strings.None else SshHosts.FirstActive(Aliases(workerAlias, n), host.value)
  }

  function Suffix(k: nat): string
  {
    if k == 0 then "" else "-" + Strings.Decimal(k + 1)
  }

  /** ssh takes it for a host, as it stands. */
  predicate IsHost(name: string)
  {
    name != "" && SshHosts.Accepted(name) && '@' !in name && !(SshHosts.SCHEME <= name) && name[0] != '-'
  }

  /** ssh takes it for a pattern that is not negated. */
  predicate IsPattern(p: string)
  {
    p != "" && p[0] != '#' && p[0] != '!'
  }

  /** A name that is a host, and whose stanza is for it. */
  predicate Plain(name: string)
  {
    && IsHost(name)
    && var p := SshHosts.WithoutEquals(name); IsPattern(p) && (p == name || SshHosts.Glob(p, name))
  }

  /** And the stanza without a suffix, which comes first, is not for it as well. */
  predicate Distinct(name: string, k: nat)
  {
    Plain(name) && (k > 0 ==> !SshHosts.EndFits(SshHosts.WithoutEquals(name), name + Suffix(k)))
  }

  predicate Addressable(workerAlias: string, k: nat)
  {
    Distinct(Strings.TrimSpace(workerAlias), k) && ',' !in workerAlias && (k > 0 ==> !Strings.IsSpace(workerAlias[|workerAlias| - 1]))
  }

  /** The configured name stays on its line, and it does not hold both a user or a URI and
      a character that ssh refuses in a host. */
  predicate OnItsLine(workerAlias: string)
  {
    && !SshHosts.BreaksFirst(workerAlias)
    && (SshHosts.Accepted(workerAlias) || ('@' !in workerAlias && !(SshHosts.SCHEME <= Strings.TrimSpace(workerAlias))))
  }

  predicate Digital(s: string)
  {
    forall i :: 0 <= i < |s| ==> '0' <= s[i] <= '9'
  }

  lemma SuffixFacts(k: nat)
    requires k > 0
    ensures |Suffix(k)| > 1 && Suffix(k)[0] == '-' && Digital(Suffix(k)[1..])
  {
    DigitsAreDigits(k + 1);
    assert Suffix(k)[1..] == Strings.Digits(k + 1);
  }

  predicate Dashed(c: char)
  {
    c == '-' || '0' <= c <= '9'
  }

  lemma DashedIsPlain(c: char)
    requires Dashed(c)
    ensures !SshHosts.Refused(c) && c != '*' && c != ',' && c != '@' && c != '/'
  {
    assert forall d :: d in "'`\"$\\;&<>|(){}" ==> !Dashed(d);
  }

  lemma SuffixIsDashed(k: nat)
    ensures forall i :: 0 <= i < |Suffix(k)| ==> Dashed(Suffix(k)[i])
  {
    if k > 0 {
      SuffixFacts(k);
      forall i | 0 <= i < |Suffix(k)| ensures Dashed(Suffix(k)[i]) {
        if i > 0 { assert Suffix(k)[i] == Suffix(k)[1..][i - 1]; }
      }
    }
  }

  lemma SuffixIsPlain(k: nat)
    ensures SshHosts.Accepted(Suffix(k)) && SshHosts.Unspaced(Suffix(k)) && '*' !in Suffix(k) && ',' !in Suffix(k) && '@' !in Suffix(k)
  {
    SuffixIsDashed(k);
    forall i | 0 <= i < |Suffix(k)| ensures !SshHosts.Refused(Suffix(k)[i]) && Suffix(k)[i] !in "*,@" {
      DashedIsPlain(Suffix(k)[i]);
    }
  }

  lemma {:induction false} AfterLastOf(before: string, after: string)
    requires '-' !in after
    ensures SshHosts.AfterLast(before + "-" + after, '-') == after
  {
    var s := before + "-" + after;
    assert s[|before|] == '-';
    if before == "" {
      assert s[1..] == after;
    } else {
      assert s[1..] == before[1..] + "-" + after;
      AfterLastOf(before[1..], after);
    }
  }

  lemma SameEnds(before: string, s: string, name: string, t: string)
    requires s != "" && s[0] == '-' && '-' !in s[1..] && t != "" && t[0] == '-' && '-' !in t[1..]
    requires before + s == name + t
    ensures s == t
  {
    assert before + s == before + "-" + s[1..] && name + t == name + "-" + t[1..];
    AfterLastOf(before, s[1..]);
    AfterLastOf(name, t[1..]);
    assert s == [s[0]] + s[1..] && t == [t[0]] + t[1..];
  }

  lemma DigitsHaveNoDash(k: nat)
    requires k > 0
    ensures Suffix(k) != "" && Suffix(k)[0] == '-' && '-' !in Suffix(k)[1..] && '?' !in Suffix(k)
  {
    SuffixFacts(k);
    SuffixIsDashed(k);
  }

  lemma FitsIsSame(s: string, end: string)
    requires '?' !in s && SshHosts.Fits(s, end)
    ensures s == end
  {
    assert forall i :: 0 <= i < |s| ==> s[i] in s;
  }

  /** The end of one peer's name is no end of another's. */
  lemma SuffixesDiffer(name: string, i: nat, k: nat)
    requires 0 < i && 0 < k && |name + Suffix(k)| >= |Suffix(i)|
    requires SshHosts.Fits(Suffix(i), (name + Suffix(k))[|name + Suffix(k)| - |Suffix(i)|..])
    ensures i == k
  {
    DigitsHaveNoDash(i);
    DigitsHaveNoDash(k);
    var whole, n := name + Suffix(k), |name + Suffix(k)| - |Suffix(i)|;
    FitsIsSame(Suffix(i), whole[n..]);
    assert whole == whole[..n] + whole[n..];
    SameEnds(whole[..n], Suffix(i), name, Suffix(k));
    AliasesDiffer("", i, k);
  }

  lemma AliasParts(workerAlias: string, k: nat)
    ensures AliasOf(workerAlias, k) == workerAlias + Suffix(k)
  {
    assert k == 0 ==> workerAlias + "" == workerAlias;
  }

  /** What is left between the name's own end and its suffix. */
  function Gap(after: string, k: nat): string
  {
    if k == 0 then "" else after + Suffix(k)
  }

  lemma NameParts(workerAlias: string) returns (before: string, after: string)
    requires Strings.TrimSpace(workerAlias) != ""
    ensures workerAlias == before + Strings.TrimSpace(workerAlias) + after && SshHosts.Blank(before) && SshHosts.Blank(after)
    ensures after == "" <==> !Strings.IsSpace(workerAlias[|workerAlias| - 1])
  {
    var i, j := SshHosts.TrimParts(workerAlias);
    before, after := workerAlias[..i], workerAlias[j..];
    if j == |workerAlias| { assert workerAlias[j - 1] == workerAlias[i..j][j - 1 - i]; }
  }

  lemma LongerTrimmed(before: string, name: string, after: string, k: nat)
    requires SshHosts.Blank(before) && SshHosts.Blank(after) && name != "" && !Strings.IsSpace(name[0]) && k > 0
    ensures Strings.TrimSpace((before + name + after) + Suffix(k)) == name + Gap(after, k)
  {
    SuffixFacts(k);
    SuffixIsDashed(k);
    var whole := name + (after + Suffix(k));
    DashedIsPlain(Suffix(k)[|Suffix(k)| - 1]);
    assert whole[|whole| - 1] == Suffix(k)[|Suffix(k)| - 1];
    assert (before + name + after) + Suffix(k) == before + whole + "";
    SshHosts.TrimmedParts(before, whole, "");
  }

  lemma AliasTrimmed(workerAlias: string, k: nat) returns (before: string, after: string)
    requires Strings.TrimSpace(workerAlias) != ""
    ensures workerAlias == before + Strings.TrimSpace(workerAlias) + after && SshHosts.Blank(before) && SshHosts.Blank(after)
    ensures after == "" <==> !Strings.IsSpace(workerAlias[|workerAlias| - 1])
    ensures Strings.TrimSpace(AliasOf(workerAlias, k)) == Strings.TrimSpace(workerAlias) + Gap(after, k)
  {
    before, after := NameParts(workerAlias);
    AliasParts(workerAlias, k);
    if k > 0 { LongerTrimmed(before, Strings.TrimSpace(workerAlias), after, k); }
  }

  lemma {:induction false} BreaksAlike(before: string, x: string, y: string)
    requires x != "" && y != "" && !Strings.IsSpace(x[0]) && !Strings.IsSpace(y[0])
    ensures SshHosts.BreaksFirst(before + x) <==> SshHosts.BreaksFirst(before + y)
  {
    if before == "" {
      assert before + x == x && before + y == y;
    } else {
      assert (before + x)[1..] == before[1..] + x && (before + y)[1..] == before[1..] + y;
      BreaksAlike(before[1..], x, y);
    }
  }

  /** The stanza of a name without blanks inside has one pattern. */
  lemma OnePattern(before: string, name: string, after: string, i: nat)
    requires SshHosts.Blank(before) && SshHosts.Blank(after) && name != "" && SshHosts.Unspaced(name)
    requires !SshHosts.BreaksFirst(before + name + after) && (i == 0 || after == "")
    ensures var p := SshHosts.WithoutEquals(name) + Suffix(i);
            SshHosts.Patterns(AliasOf(before + name + after, i)) == if p == "" || "#" <= p then [] else [p]
  {
    SuffixIsPlain(i);
    AliasParts(before + name + after, i);
    Regrouped(before, name, after, Suffix(i));
    var whole := name + Suffix(i);
    assert !Strings.IsSpace(whole[0]) && whole[0] == name[0];
    BreaksAlike(before, name + after, whole + after);
    SshHosts.PatternsOf(before, whole, after);
    assert SshHosts.WithoutEquals(whole) == SshHosts.WithoutEquals(name) + Suffix(i);
  }

  lemma Regrouped(before: string, name: string, after: string, suffix: string)
    requires suffix == "" || after == ""
    ensures (before + name + after) + suffix == before + (name + suffix) + after == before + ((name + suffix) + after)
    ensures before + name + after == before + (name + after)
  {
  }

  lemma AcceptedIsUnspaced(s: string)
    requires SshHosts.Accepted(s)
    ensures SshHosts.Unspaced(s)
  {
    forall i | 0 <= i < |s| ensures !Strings.IsSpace(s[i]) { assert !SshHosts.Refused(s[i]); }
  }

  lemma ActiveOne(p: string, host: string)
    ensures SshHosts.Active(if p == "" || "#" <= p then [] else [p], host) <==> p != "" && p[0] != '#' && p[0] != '!' && SshHosts.Glob(p, host)
  {
    if p != "" && p[0] != '#' { assert p in [p] && ("!" <= p <==> p[0] == '!'); }
  }

  lemma FirstActiveIs(aliases: seq<string>, host: string, k: nat)
    requires k < |aliases|
    ensures SshHosts.FirstActive(aliases, host) == Strings.Some(k) <==>
              SshHosts.IsFor(aliases[k], host) && forall i :: 0 <= i < k ==> !SshHosts.IsFor(aliases[i], host)
  {
  }

  lemma StillThere(name: string, suffix: string, c: char)
    requires c in name && c != '='
    ensures c in SshHosts.WithoutEquals(name) + suffix
  {
    var j :| 0 <= j < |name| && name[j] == c;
    assert c in SshHosts.WithoutEquals(name) by {
      if name[0] == '=' { assert name[1..][j - 1] == c; }
    }
  }

  /** A character ssh cuts its argument at keeps the stanza from matching. */
  lemma CutNeverMatches(workerAlias: string, i: nat, host: string, c: char)
    requires SshHosts.Accepted(workerAlias) && workerAlias != "" && c in workerAlias && c !in host && (c == '@' || c == '/')
    ensures !SshHosts.IsFor(AliasOf(workerAlias, i), host)
  {
    AcceptedIsTrimmed(workerAlias);
    AcceptedIsUnspaced(workerAlias);
    assert "" + workerAlias + "" == workerAlias;
    OnePattern("", workerAlias, "", i);
    var p := SshHosts.WithoutEquals(workerAlias) + Suffix(i);
    ActiveOne(p, host);
    StillThere(workerAlias, Suffix(i), c);
    if SshHosts.Glob(p, host) { SshHosts.MatchHolds(p, host, c); }
  }

  lemma AcceptedIsTrimmed(s: string)
    requires SshHosts.Accepted(s) && s != ""
    ensures Strings.TrimSpace(s) == s && !SshHosts.BreaksFirst(s) && !Strings.IsSpace(s[|s| - 1])
  {
    assert !SshHosts.Refused(s[0]) && !SshHosts.Refused(s[|s| - 1]);
  }

  /** Which patterns match the k-th name. */
  lemma SuffixedMatch(p: string, name: string, i: nat, k: nat)
    requires i <= k
    ensures i == k ==> (SshHosts.Glob(p + Suffix(i), name + Suffix(k)) <==> SshHosts.Glob(p, name))
    ensures 0 < i < k ==> !SshHosts.Glob(p + Suffix(i), name + Suffix(k))
  {
    SuffixIsPlain(i);
    var host, n := name + Suffix(k), |Suffix(i)|;
    SshHosts.MatchSplits(p, Suffix(i), host);
    if i == k {
      assert host[..|host| - n] == name && host[|host| - n..] == Suffix(i);
    } else if 0 < i && SshHosts.EndsMatch(p, Suffix(i), host) {
      SuffixesDiffer(name, i, k);
    }
  }

  predicate ActiveAt(workerAlias: string, i: nat, host: string)
  {
    SshHosts.IsFor(AliasOf(workerAlias, i), host)
  }

  /** One stanza for a name that is a host. */
  lemma StanzaMatches(before: string, name: string, after: string, i: nat, host: string)
    requires SshHosts.Blank(before) && SshHosts.Blank(after) && name != "" && SshHosts.Unspaced(name)
    requires !SshHosts.BreaksFirst(before + name + after) && (i == 0 || after == "")
    ensures var p := SshHosts.WithoutEquals(name) + Suffix(i);
            ActiveAt(before + name + after, i, host) <==> IsPattern(p) && SshHosts.Glob(p, host)
  {
    OnePattern(before, name, after, i);
    ActiveOne(SshHosts.WithoutEquals(name) + Suffix(i), host);
  }

  lemma OwnMatch(name: string, k: nat)
    requires name != ""
    ensures var p := SshHosts.WithoutEquals(name); var q := p + Suffix(k);
            IsPattern(q) && SshHosts.Glob(q, name + Suffix(k)) <==> IsPattern(p) && (p == name || SshHosts.Glob(p, name))
  {
    var p := SshHosts.WithoutEquals(name);
    SuffixedMatch(p, name, k, k);
    SshHosts.MatchesItself(name);
    if p == "" { assert !SshHosts.Glob(p, name); }
  }

  lemma EarlierStanzas(before: string, name: string, after: string, k: nat)
    requires SshHosts.Blank(before) && SshHosts.Blank(after) && Plain(name) && SshHosts.Unspaced(name)
    requires !SshHosts.BreaksFirst(before + name + after) && (k == 0 || after == "")
    ensures (forall i :: 0 <= i < k ==> !ActiveAt(before + name + after, i, name + Suffix(k))) <==> Distinct(name, k)
  {
    var p, w := SshHosts.WithoutEquals(name), before + name + after;
    forall i | 0 <= i < k ensures ActiveAt(w, i, name + Suffix(k)) <==> i == 0 && SshHosts.EndFits(p, name + Suffix(k)) {
      StanzaMatches(before, name, after, i, name + Suffix(k));
      LaterName(p, name, i, k);
    }
    if k > 0 { assert ActiveAt(w, 0, name + Suffix(k)) <==> !Distinct(name, k); }
  }

  lemma LaterName(p: string, name: string, i: nat, k: nat)
    requires i < k && (p == name || SshHosts.Glob(p, name)) && IsPattern(p)
    ensures IsPattern(p + Suffix(i)) && SshHosts.Glob(p + Suffix(i), name + Suffix(k)) <==> i == 0 && SshHosts.EndFits(p, name + Suffix(k))
  {
    if i > 0 {
      SuffixedMatch(p, name, i, k);
    } else {
      assert p + Suffix(0) == p;
      SshHosts.MatchesItself(name);
      SuffixFacts(k);
      SshHosts.LongerMatchesExactly(p, name, Suffix(k));
    }
  }

  lemma FirstIsOwn(aliases: seq<string>, workerAlias: string, host: string, k: nat)
    requires k < |aliases| && forall i :: 0 <= i < |aliases| ==> aliases[i] == AliasOf(workerAlias, i)
    ensures SshHosts.FirstActive(aliases, host) == Strings.Some(k) <==> ActiveAt(workerAlias, k, host) && forall i :: 0 <= i < k ==> !ActiveAt(workerAlias, i, host)
  {
    FirstActiveIs(aliases, host, k);
    forall i | 0 <= i <= k ensures ActiveAt(workerAlias, i, host) <==> SshHosts.IsFor(aliases[i], host) {}
  }

  /** For a name that is a host: the k-th peer is contacted by its own stanza exactly when
      the name is a pattern that matches it and the first one does not. */
  lemma HostContacted(before: string, name: string, after: string, n: nat, k: nat)
    requires SshHosts.Blank(before) && SshHosts.Blank(after) && IsHost(name) && k < n
    requires !SshHosts.BreaksFirst(before + name + after) && (k == 0 || after == "")
    ensures SshHosts.FirstActive(Aliases(before + name + after, n), name + Suffix(k)) == Strings.Some(k) <==> Distinct(name, k)
  {
    FirstIsOwn(Aliases(before + name + after, n), before + name + after, name + Suffix(k), k);
    AcceptedIsUnspaced(name);
    StanzaMatches(before, name, after, k, name + Suffix(k));
    OwnMatch(name, k);
    if Plain(name) { EarlierStanzas(before, name, after, k); }
  }

  lemma {:induction false} AfterLastAppends(a: string, b: string)
    requires '@' !in a && '@' !in b
    ensures SshHosts.AfterLast(a + b, '@') == a + b
  {
  }

  /** What follows the name does not make it a URI. */
  lemma NoScheme(name: string, more: string)
    requires !(SshHosts.SCHEME <= name) && (more == "" || more[0] == '-' || Strings.IsSpace(more[0]))
    ensures !(SshHosts.SCHEME <= name + more)
  {
    var s, n := name + more, |name|;
    if n < 6 && n < |s| {
      assert s[n] == more[0] && SshHosts.SCHEME[n] != '-' && !Strings.IsSpace(SshHosts.SCHEME[n]);
    }
  }

  /** A host as ssh reads it back. */
  lemma HostStands(name: string, k: nat)
    requires IsHost(name)
    ensures SshHosts.HostIn(name + Suffix(k)) == Strings.Some(name + Suffix(k))
  {
    SuffixIsPlain(k);
    if k > 0 { SuffixFacts(k); }
    NoScheme(name, Suffix(k));
    AfterLastAppends(name, Suffix(k));
    AcceptedTogether(name, Suffix(k));
  }

  lemma AcceptedTogether(a: string, b: string)
    ensures SshHosts.Accepted(a + b) <==> SshHosts.Accepted(a) && SshHosts.Accepted(b)
  {
    var s := a + b;
    assert forall i :: 0 <= i < |a| ==> s[i] == a[i];
    assert forall i :: 0 <= i < |b| ==> s[|a| + i] == b[i];
  }

  /** A name that is no host, and no user or URI either, is refused. */
  lemma NoHost(name: string, more: string)
    requires '@' !in name && '@' !in more && !(SshHosts.SCHEME <= name) && (more == "" || more[0] == '-' || Strings.IsSpace(more[0]))
    requires name != "" && (name[0] == '-' || !SshHosts.Accepted(name) || !SshHosts.Accepted(more))
    ensures SshHosts.HostIn(name + more).None?
  {
    NoScheme(name, more);
    AfterLastAppends(name, more);
    AcceptedTogether(name, more);
  }

  lemma NamesAreThere(workerAlias: string, n: nat)
    requires Strings.TrimSpace(workerAlias) != ""
    ensures "" !in Trimmed(Aliases(workerAlias, n))
  {
    forall k | 0 <= k < n ensures Trimmed(Aliases(workerAlias, n))[k] != "" {
      var _, _ := AliasTrimmed(workerAlias, k);
    }
  }

  /** The stanza for what ssh is told, if it is told anything. */
  function Told(workerAlias: string, n: nat, k: nat): Strings.Option<nat>
  {
    if ',' in workerAlias || Strings.TrimSpace(workerAlias) == "" then Strings.None
    else
      var host := SshHosts.HostIn(Strings.TrimSpace(AliasOf(workerAlias, k)));
      if host.None? then Strings.None else SshHosts.FirstActive(Aliases(workerAlias, n), host.value)
  }

  /** Nothing is lost on the way through the environment but commas and blanks. */
  lemma ToldToSsh(workerAlias: string, n: nat, k: nat)
    requires k < n
    ensures Contacted(workerAlias, n, k) == Told(workerAlias, n, k)
  {
    if ',' in workerAlias {
      CommaMakesMore(workerAlias, n);
    } else {
      NamesAreTrimmed(workerAlias, n);
      if Strings.TrimSpace(workerAlias) == "" {
        assert Trimmed(Aliases(workerAlias, n))[0] == "";
      } else {
        NamesAreThere(workerAlias, n);
      }
    }
  }

  lemma ToldExactly(workerAlias: string, n: nat, k: nat)
    requires OnItsLine(workerAlias) && k < n
    ensures Told(workerAlias, n, k) == Strings.Some(k) <==> Addressable(workerAlias, k)
  {
    var name := Strings.TrimSpace(workerAlias);
    if ',' !in workerAlias && name != "" {
      var before, after := AliasTrimmed(workerAlias, k);
      if '@' in name || SshHosts.SCHEME <= name {
        NameIsThere(workerAlias);
        AcceptedIsTrimmed(workerAlias);
        assert Gap(after, k) == Suffix(k);
        CutTold(workerAlias, n, k);
      } else {
        HostTold(before, name, after, n, k);
      }
    }
  }

  /** A user or a URI in the name: no stanza is for the host in it. */
  lemma CutTold(workerAlias: string, n: nat, k: nat)
    requires SshHosts.Accepted(workerAlias) && workerAlias != "" && k < n && ('@' in workerAlias || SshHosts.SCHEME <= workerAlias)
    ensures var host := SshHosts.HostIn(workerAlias + Suffix(k)); host.Some? ==> SshHosts.FirstActive(Aliases(workerAlias, n), host.value).None?
  {
    var host := SshHosts.HostIn(workerAlias + Suffix(k));
    if host.Some? {
      var c := if '@' in workerAlias then '@' else '/';
      assert SshHosts.SCHEME[4] == '/' && (c == '/' ==> workerAlias[4] == '/');
      SshHosts.HostIsCut(workerAlias + Suffix(k), c);
      forall i | 0 <= i < n ensures !SshHosts.IsFor(Aliases(workerAlias, n)[i], host.value) {
        CutNeverMatches(workerAlias, i, host.value, c);
      }
    }
  }

  lemma HostTold(before: string, name: string, after: string, n: nat, k: nat)
    requires SshHosts.Blank(before) && SshHosts.Blank(after) && name != "" && '@' !in name && !(SshHosts.SCHEME <= name) && k < n
    requires !SshHosts.BreaksFirst(before + name + after)
    ensures var host := SshHosts.HostIn(name + Gap(after, k));
            host.Some? && SshHosts.FirstActive(Aliases(before + name + after, n), host.value) == Strings.Some(k) <==> Distinct(name, k) && (k == 0 || after == "")
  {
    if IsHost(name) && (k == 0 || after == "") {
      assert Gap(after, k) == Suffix(k);
      HostStands(name, k);
      HostContacted(before, name, after, n, k);
    } else {
      BlankAfter(after, k);
      NoHost(name, Gap(after, k));
    }
  }

  /** For every configured name that stays on its line: the k-th peer is contacted by its own
      stanza exactly when the name can be told from a list, an option and a pattern. */
  lemma ContactedExactly(workerAlias: string, n: nat, k: nat)
    requires OnItsLine(workerAlias) && k < n
    ensures Contacted(workerAlias, n, k) == Strings.Some(k) <==> Addressable(workerAlias, k)
  {
    ToldToSsh(workerAlias, n, k);
    ToldExactly(workerAlias, n, k);
  }

  lemma NameIsThere(workerAlias: string)
    requires Strings.TrimSpace(workerAlias) != ""
    ensures workerAlias != "" && forall c :: c in Strings.TrimSpace(workerAlias) ==> c in workerAlias
  {
    var _, _ := NameParts(workerAlias);
  }

  lemma BlankAfter(after: string, k: nat)
    requires SshHosts.Blank(after)
    ensures var gap := Gap(after, k); '@' !in gap && (gap == "" || gap[0] == '-' || Strings.IsSpace(gap[0])) && (k > 0 && after != "" ==> !SshHosts.Accepted(gap))
  {
    SuffixIsPlain(k);
    if k > 0 { SuffixFacts(k); }
    if k > 0 && after != "" { assert SshHosts.Refused(Gap(after, k)[0]); }
  }

  lemma WildcardIsHost()
    ensures SshHosts.Accepted("w*") && Strings.TrimSpace("w*") == "w*" && !SshHosts.BreaksFirst("w*") && IsHost("w*") && ',' !in "w*"
    ensures IsPattern("w*") && SshHosts.WithoutEquals("w*") == "w*"
    ensures forall s :: SshHosts.EndFits("w*", s)
  {
    assert !SshHosts.Refused('w') && !SshHosts.Refused('*');
    assert "w*"[1..] == "*" && "*"[1..] == "";
    assert SshHosts.Tail("w*") == "" && '*' in "w*" by { assert "w*"[1] == '*'; }
  }

  /** A pattern that its own second name fits leads that name to the first stanza. */
  lemma SecondToFirst(w: string)
    requires IsPattern(w) && SshHosts.WithoutEquals(w) == w && SshHosts.EndFits(w, w + Suffix(1)) && SshHosts.Unspaced(w) && !SshHosts.BreaksFirst(w)
    ensures SshHosts.FirstActive(Aliases(w, 2), w + Suffix(1)) == Strings.Some(0)
  {
    var host := w + Suffix(1);
    assert "" + w + "" == w;
    StanzaMatches("", w, "", 0, host);
    LaterName(w, w, 0, 1);
    FirstIsOwn(Aliases(w, 2), w, host, 0);
  }

  lemma SecondTold(w: string)
    requires IsHost(w)
    ensures SshHosts.HostIn(Strings.TrimSpace(AliasOf(w, 1))) == Strings.Some(w + Suffix(1))
  {
    AliasParts(w, 1);
    HostStands(w, 1);
    SuffixIsPlain(1);
    AcceptedTogether(w, Suffix(1));
    AcceptedIsTrimmed(w + Suffix(1));
  }

  /** A name with a wildcard is a pattern for the other peers' names too: the second worker's
      name leads to the first one. */
  lemma WildcardExample()
    ensures Contacted("w*", 2, 1) == Strings.Some(0)
  {
    WildcardIsHost();
    AcceptedIsUnspaced("w*");
    ToldToSsh("w*", 2, 1);
    SecondTold("w*");
    SecondToFirst("w*");
  }

  /** Nor does a negated pattern, an option, a pair of patterns or a user lead to the peer. */
  lemma OtherNamesExample(w: string, n: nat, k: nat)
    requires k < n && w in {"!w", "-v", "a b", "a@b"}
    ensures Contacted(w, n, k) != Strings.Some(k)
  {
    OtherNames();
    ContactedExactly(w, n, k);
  }

  lemma OtherNames()
    ensures forall w :: w in {"!w", "-v", "a b", "a@b"} ==> OnItsLine(w) && !Plain(Strings.TrimSpace(w))
  {
    NotPlain("!w", '!');
    NotPlain("-v", '-');
    NotPlain("a b", 'a') by { assert "a b"[1] == ' ' && SshHosts.Refused(' '); }
    NotPlain("a@b", 'a') by { assert "a@b"[1] == '@'; UsualIsPlain('a'); UsualIsPlain('b'); AtIsAccepted(); }
  }

  lemma AtIsAccepted()
    ensures !SshHosts.Refused('@') && !SshHosts.Refused('!')
  {
    assert forall d :: d in "'`\"$\\;&<>|(){}" ==> d != '@' && d != '!';
  }

  lemma NotPlain(w: string, first: char)
    requires |w| > 1 && w[0] == first && !Strings.IsSpace(first) && !Strings.IsSpace(w[|w| - 1]) && first != 's'
    requires first == '!' || first == '-' || !SshHosts.Accepted(w) || '@' in w
    requires '@' !in w || SshHosts.Accepted(w)
    ensures OnItsLine(w) && !Plain(Strings.TrimSpace(w))
  {
    assert Strings.TrimSpace(w) == w && !(SshHosts.SCHEME <= w);
  }

  predicate Ordinary(name: string)
  {
    name != "" && name[0] != '-' && forall i :: 0 <= i < |name| ==> Usual(name[i])
  }

  predicate Usual(c: char)
  {
    'a' <= c <= 'z' || 'A' <= c <= 'Z' || Dashed(c) || c == '.' || c == '_'
  }

  lemma UsualIsPlain(c: char)
    requires Usual(c)
    ensures !SshHosts.Refused(c) && c != '*' && c != ',' && c != '@' && c != '/' && c != '=' && c != '!' && c != '#'
  {
    assert forall d :: d in "'`\"$\\;&<>|(){}" ==> !Usual(d);
  }

  /** Letters, digits, dots, dashes and underscores always do. */
  lemma OrdinaryNamesReach(workerAlias: string, n: nat, k: nat)
    requires Ordinary(workerAlias) && k < n
    ensures Contacted(workerAlias, n, k) == Strings.Some(k)
  {
    OrdinaryIsPlain(workerAlias);
    ContactedExactly(workerAlias, n, k);
  }

  lemma OrdinaryIsPlain(name: string)
    requires Ordinary(name)
    ensures OnItsLine(name) && forall k :: Addressable(name, k)
  {
    forall c | c in name ensures Usual(c) && !SshHosts.Refused(c) && c != '*' && c != ',' && c != '@' && c != '/' && c != '=' && c != '!' && c != '#' {
      UsualIsPlain(c);
    }
    assert name[0] in name;
    AcceptedIsTrimmed(name);
    if |name| > 4 { assert name[4] in name; }
    assert SshHosts.SCHEME[4] == '/';
  }

  /** From enrolment to contact: the configuration is written from one selection, the peers
      from another one of what was selected, and the k-th peer's name leads to the k-th of
      the same machines exactly when the configured name tells the peers apart. */
  lemma PeersReachTheirMachines(r: Recipe, c: Cluster, k: nat)
    requires Required(r) > 0 && Selected(r, c, true).Ok? && OnItsLine(r.workerAlias) && k < Required(r)
    ensures var selection := Selected(r, c, true).value;
            && Selected(r, selection, true) == Ok(selection)
            && |selection.nodes| == Required(r)
            && (Contacted(r.workerAlias, |selection.nodes|, k) == Strings.Some(k) <==> Addressable(r.workerAlias, k))
  {
    SelectedAgain(r, c, true, true);
    ChosenAreEnrolled(r, c.nodes, true);
    ContactedExactly(r.workerAlias, Required(r), k);
  }
}
