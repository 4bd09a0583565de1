/** The Docker daemon as the provider sees it: containers with unique names behind calls that may fail. */
module DockerDaemon {
  import opened GoText
  import opened Faults
  import opened ReplicaNames
  import opened ReplicaPlan

  datatype State = Created | Running | Paused | Restarting | Removing | Exited | Dead

  function StateText(s: State): string {
    match s
    case Created => "created"
    case Running => "running"
    case Paused => "paused"
    case Restarting => "restarting"
    case Removing => "removing"
    case Exited => "exited"
    case Dead => "dead"
  }

  datatype Container = Container(name: string, image: string, network: string, labels: map<string, string>,
                                 state: State, status: string, created: int)

  /** The daemon's state: containers by id, and the next id, which no container ever had. */
  datatype Host = Host(containers: map<Id, Container>, next: Id)

  function SummaryOf(id: Id, c: Container): Summary {
    Summary(id, ["/" + c.name], c.labels, StateText(c.state), c.status, c.created)
  }

  predicate StaleByState(c: Container) {
    IsStaleState(StateText(c.state), StateText(c.state))
  }

  /** Judged by its state alone, a container is stale exactly when created, exited or dead;
      a listing line of such a container is stale whatever its status text says. */
  lemma StaleStates(c: Container, id: Id)
    ensures StaleByState(c) <==> c.state in {Created, Exited, Dead}
    ensures StaleByState(c) ==> SummaryOf(id, c).Stale()
  {
    StaleText(c.state);
  }

  lemma StaleText(s: State)
    ensures IsStaleState(StateText(s), StateText(s)) <==> s in {Created, Exited, Dead}
    ensures s in {Created, Exited, Dead} <==> ToLower(TrimSpace(StateText(s))) in {"created", "exited", "dead"}
  {
    hide Contains;
    PlainText(s);
    if s !in {Created, Exited, Dead} {
      Excludes(StateText(s));
    }
  }

  lemma PlainText(s: State)
    ensures ToLower(TrimSpace(StateText(s))) == StateText(s)
  {
    var t := StateText(s);
    assert !IsSpace(t[0]) && !IsSpace(t[|t| - 1]);
    TrimSpaceKeeps(t);
    assert ToLower(t) == t;
  }

  lemma Excludes(t: string)
    requires t in {"running", "paused", "restarting", "removing"}
    ensures !Contains(t, "created") && !Contains(t, "exited") && !Contains(t, "dead")
  {
    NoPairNoWord(t, "created");
    NoPairNoWord(t, "exited");
    NoPairNoWord(t, "dead");
  }

  /** The status text Docker shows beside a state: a word, and for most states an age or exit code after it. */
  function StatusText(s: State, rest: string): string {
    match s
    case Created => "Created"
    case Running => "Up " + rest
    case Paused => "Up " + rest
    case Restarting => "Restarting " + rest
    case Removing => "Removal In Progress"
    case Exited => "Exited " + rest
    case Dead => "Dead"
  }

  const MARKERS := {"running", "created", "exited", "dead"}

  /** Text after the first word that does not itself name a state, such as "5 minutes" or "(1) 3 seconds ago". */
  ghost predicate Neutral(rest: string) {
    rest != "" && !IsSpace(rest[|rest| - 1]) && Bland(rest)
  }

  ghost predicate Bland(text: string) {
    forall w | w in MARKERS :: !Contains(ToLower(text), w)
  }

  lemma BlandJoin(a: string, b: string)
    requires Bland(a) && Bland(b)
    ensures Bland(a + " " + b)
  {
    hide Contains;
    ToLowerConcat(a + " ", b);
    ToLowerConcat(a, " ");
    assert ToLower(" ") == [' '];
    forall w | w in MARKERS
      ensures !Contains(ToLower(a + " " + b), w)
    {
      ContainsAcross(ToLower(a), ' ', ToLower(b), w);
    }
  }

  /** Texts without the letter pairs the markers begin with. */
  lemma BlandText(text: string)
    requires forall i | 0 <= i < |text| - 1 ::
               (LowerChar(text[i]), LowerChar(text[i + 1])) !in {('r', 'u'), ('c', 'r'), ('e', 'x'), ('d', 'e')}
    ensures Bland(text)
  {
    hide Contains;
    var low := ToLower(text);
    NoPairNoWord(low, "running");
    NoPairNoWord(low, "created");
    NoPairNoWord(low, "exited");
    NoPairNoWord(low, "dead");
  }

  /** What the planner reads off Docker's own lines: running if running (or paused, whose text also begins with "Up"),
      stale if created, exited or dead; a restarting container is neither. */
  lemma LinesRead(id: Id, c: Container, rest: string)
    requires Neutral(rest) && c.status == StatusText(c.state, rest)
    ensures SummaryOf(id, c).Running() <==> c.state in {Running, Paused}
    ensures SummaryOf(id, c).Stale() <==> c.state in {Created, Exited, Dead}
  {
    hide Contains, TrimSpace, ToLower, HasPrefix, IsSpace;
    PlainText(c.state);
    StatusRead(c.state, rest);
  }

  function Age(n: nat, unit: string): string {
    Decimal(n) + " " + unit
  }

  function CodeAndAge(code: nat, n: nat, unit: string): string {
    "(" + Decimal(code) + ")" + " " + Age(n, unit) + " " + "ago"
  }

  /** Docker's ages are such texts: "5 minutes" after "Up", and "(1) 3 seconds ago" after "Restarting" or "Exited". */
  lemma AgesAreNeutral(code: nat, n: nat, unit: string)
    requires unit in {"seconds", "minutes", "hours", "days", "weeks", "months"}
    ensures Neutral(Age(n, unit)) && Neutral(CodeAndAge(code, n, unit))
  {
    hide Bland, Decimal;
    BlandWords(code, n, unit);
    BlandJoin(Decimal(n), unit);
    BlandJoin("(" + Decimal(code) + ")", Age(n, unit));
    BlandJoin("(" + Decimal(code) + ")" + " " + Age(n, unit), "ago");
    assert unit[|unit| - 1] == 's';
  }

  lemma BlandWords(code: nat, n: nat, unit: string)
    requires unit in {"seconds", "minutes", "hours", "days", "weeks", "months"}
    ensures Bland(Decimal(n)) && Bland("(" + Decimal(code) + ")") && Bland(unit) && Bland("ago")
  {
    hide Bland, Decimal;
    BlandText(Decimal(n));
    BlandText("(" + Decimal(code) + ")");
    BlandText(unit);
    BlandText("ago");
  }

  /** A container in state running lists as running whatever its status text. */
  lemma RunningStates(s: State, c: Container, id: Id)
    ensures IsRunningState(StateText(s), StateText(s)) <==> s == Running
    ensures c.state == Running ==> SummaryOf(id, c).Running()
  {
    hide Contains;
    PlainText(s);
    PlainText(c.state);
    if s != Running {
      NotUp(StateText(s));
    }
  }

  lemma NotUp(t: string)
    requires t in {"created", "paused", "restarting", "removing", "exited", "dead"}
    ensures !Contains(t, "running") && !HasPrefix(t, "up ")
  {
    NoPairNoWord(t, "running");
    assert t[0] != 'u';
  }

  /** The status text, trimmed and in lower case. */
  function StatusRest(s: State, rest: string): string {
    match s
    case Created => "created"
    case Running => "up " + ToLower(rest)
    case Paused => "up " + ToLower(rest)
    case Restarting => "restarting " + ToLower(rest)
    case Removing => "removal in progress"
    case Exited => "exited " + ToLower(rest)
    case Dead => "dead"
  }

  lemma StatusRead(s: State, rest: string)
    requires Neutral(rest)
    ensures var t := ToLower(TrimSpace(StatusText(s, rest)));
            (Contains(t, "running") || HasPrefix(t, "up ") <==> s in {Running, Paused})
            && (Contains(t, "created") <==> s == Created) && (Contains(t, "exited") <==> s == Exited)
            && (Contains(t, "dead") <==> s == Dead)
  {
    hide Contains, TrimSpace, IsSpace;
    StatusLower(s, rest);
    var low := ToLower(rest);
    assert "up" + " " == "up " && "restarting" + " " == "restarting " && "exited" + " " == "exited ";
    assert "running" in MARKERS && "created" in MARKERS && "exited" in MARKERS && "dead" in MARKERS;
    match s {
      case Created => FirstWord("created", None);
      case Dead => FirstWord("dead", None);
      case Running => FirstWord("up", Some(low));
      case Paused => FirstWord("up", Some(low));
      case Restarting => FirstWord("restarting", Some(low));
      case Exited => FirstWord("exited", Some(low));
      case Removing => RemovalText();
    }
  }

  lemma StatusLower(s: State, rest: string)
    requires Neutral(rest)
    ensures ToLower(TrimSpace(StatusText(s, rest))) == StatusRest(s, rest)
  {
    hide Contains, ToLower, TrimSpace;
    var t := StatusText(s, rest);
    assert !IsSpace(t[0]) && !IsSpace(t[|t| - 1]);
    TrimSpaceKeeps(t);
    ToLowerConcat("Up ", rest);
    ToLowerConcat("Restarting ", rest);
    ToLowerConcat("Exited ", rest);
    LowerWords();
  }

  lemma LowerWords()
    ensures ToLower("Up ") == "up " && ToLower("Created") == "created" && ToLower("Dead") == "dead"
    ensures ToLower("Restarting ") == "restarting " && ToLower("Exited ") == "exited "
    ensures ToLower("Removal In Progress") == "removal in progress"
  {
  }

  /** Which markers a text shows whose first word is one of these and whose rest shows none. */
  lemma FirstWord(word: string, rest: Option<string>)
    requires word in {"created", "dead", "up", "restarting", "exited"}
    requires rest.Some? ==> forall w | w in MARKERS :: !Contains(rest.value, w)
    ensures var t := if rest.Some? then word + " " + rest.value else word;
            (forall w | w in MARKERS :: Contains(t, w) <==> word == w)
            && (HasPrefix(t, "up ") <==> word == "up" && rest.Some?)
  {
    UpPrefix(word, rest);
    forall w | w in MARKERS
      ensures Contains(word, w) <==> word == w
    {
      if word == w {
        assert OccursAt(word, w, 0);
      } else {
        NoPairNoWord(word, w);
      }
    }
    if rest.Some? {
      forall w | w in MARKERS
        ensures Contains(word + [' '] + rest.value, w) <==> word == w
      {
        ContainsAcross(word, ' ', rest.value, w);
      }
      assert word + " " + rest.value == word + [' '] + rest.value;
    }
  }

  lemma UpPrefix(word: string, rest: Option<string>)
    requires word in {"created", "dead", "up", "restarting", "exited"}
    ensures var t := if rest.Some? then word + " " + rest.value else word;
            HasPrefix(t, "up ") <==> word == "up" && rest.Some?
  {
    var t := if rest.Some? then word + " " + rest.value else word;
    assert t[0] == word[0];
    if word == "up" {
      assert "up" + " " == "up ";
    } else {
      assert word[0] != 'u';
    }
  }

  lemma RemovalText()
    ensures forall w | w in MARKERS :: !Contains("removal in progress", w)
    ensures !HasPrefix("removal in progress", "up ")
  {
    assert "removal in progress"[0] != 'u';
    forall w | w in MARKERS
      ensures !Contains("removal in progress", w)
    {
      NoPairNoWord("removal in progress", w);
    }
  }

  predicate NameTaken(h: Host, name: string) {
    exists id | id in h.containers :: h.containers[id].name == name
  }

  /** Docker's own guarantees: names are unique and ids are never reused. */
  ghost predicate WellFormed(h: Host) {
    (forall id | id in h.containers :: id < h.next)
    && (forall a, b | a in h.containers && b in h.containers && h.containers[a].name == h.containers[b].name :: a == b)
  }

  predicate BelongsTo(c: Container, service: string) {
    LABEL_FUNCTION in c.labels && c.labels[LABEL_FUNCTION] == service
  }

  /** A listing of a function: every container that carries its label, once, in some order. */
  ghost predicate Lists(h: Host, service: string, listing: seq<Summary>) {
    (forall k | 0 <= k < |listing| ::
       listing[k].id in h.containers && BelongsTo(h.containers[listing[k].id], service)
       && listing[k] == SummaryOf(listing[k].id, h.containers[listing[k].id]))
    && (forall a, b | 0 <= a < b < |listing| :: listing[a].id != listing[b].id)
    && (forall id | id in h.containers && BelongsTo(h.containers[id], service) ::
          SummaryOf(id, h.containers[id]) in listing)
  }

  function Stopped(c: Container): Container {
    c.(state := Exited, status := "Exited (0)")
  }

  function Started(c: Container): Container {
    c.(state := Running, status := "Up")
  }

  function AfterStop(h: Host, id: Id): Host {
    if id in h.containers then h.(containers := h.containers[id := Stopped(h.containers[id])]) else h
  }

  function AfterStart(h: Host, id: Id): Host {
    if id in h.containers then h.(containers := h.containers[id := Started(h.containers[id])]) else h
  }

  function AfterRemove(h: Host, id: Id): Host {
    h.(containers := h.containers - {id})
  }

  function AfterCreate(h: Host, name: string, image: string, network: string, labels: map<string, string>, now: int)
    : Host
  {
    if NameTaken(h, name) then h
    else Host(h.containers[h.next := Container(name, image, network, labels, Created, "Created", now)], h.next + 1)
  }

  function Drifted(h: Host, id: Id, state: State, status: string): Host {
    if id in h.containers
    then h.(containers := h.containers[id := h.containers[id].(state := state, status := status)])
    else h
  }

  class Daemon {
    const schedule: nat -> Fault
    const clock: nat -> int
    var calls: nat
    var host: Host
    /** The state after each call so far. */
    ghost var seen: seq<Host>

    ghost predicate Valid()
      reads this
    {
      WellFormed(host)
    }

    /** No call from number `from` on has failed. */
    ghost predicate NoFaults(from: nat)
      reads this
    {
      forall k | from <= k < calls :: schedule(k).Answered?
    }

    constructor (schedule: nat -> Fault, clock: nat -> int, host: Host)
      requires WellFormed(host)
      ensures Valid() && this.host == host && calls == 0 && seen == []
      ensures this.schedule == schedule && this.clock == clock
    {
      this.schedule, this.clock, this.host, calls, seen := schedule, clock, host, 0, [];
    }

    method Finish(fault: Fault, next: Host)
      requires Valid() && WellFormed(next) && fault == schedule(calls)
      modifies this
      ensures Valid() && calls == old(calls) + 1
      ensures host == if fault.Refused? then old(host) else next
      ensures seen == old(seen) + [host]
    {
      if !fault.Refused? {
        host := next;
      }
      calls := calls + 1;
      seen := seen + [host];
    }

    /** Any other call: image pulls, network creation, secret checks, inspections by id.
        They can fail but touch no container. */
    method OtherCall() returns (ok: bool)
      requires Valid()
      modifies this
      ensures Valid() && calls == old(calls) + 1 && host == old(host) && seen == old(seen) + [host]
      ensures ok <==> schedule(old(calls)).Answered?
    {
      ok := schedule(calls).Answered?;
      Finish(schedule(calls), host);
    }

    method ContainerList(service: string) returns (reply: Reply<seq<Summary>>)
      requires Valid()
      modifies this
      ensures Valid() && calls == old(calls) + 1 && host == old(host) && seen == old(seen) + [host]
      ensures reply.Done? <==> schedule(old(calls)).Answered?
      ensures reply.Done? ==> Lists(host, service, reply.value)
    {
      var fault := schedule(calls);
      var listing: seq<Summary> := [];
      var todo := host.containers.Keys;
      while todo != {}
        invariant Valid() && host == old(host) && calls == old(calls) && seen == old(seen)
        invariant todo <= host.containers.Keys
        invariant forall k | 0 <= k < |listing| ::
            listing[k].id in host.containers && listing[k].id !in todo
            && BelongsTo(host.containers[listing[k].id], service)
            && listing[k] == SummaryOf(listing[k].id, host.containers[listing[k].id])
        invariant forall a, b | 0 <= a < b < |listing| :: listing[a].id != listing[b].id
        invariant forall id | id in host.containers && id !in todo && BelongsTo(host.containers[id], service) ::
            SummaryOf(id, host.containers[id]) in listing
      {
        var id := NextKey(todo);
        todo := todo - {id};
        if BelongsTo(host.containers[id], service) {
          listing := listing + [SummaryOf(id, host.containers[id])];
        }
      }
      reply := if fault.Answered? then Done(listing) else Failed;
      Finish(fault, host);
    }

    /** Looks a container up by name: its id and state. */
    method ContainerInspect(name: string) returns (reply: Reply<(Id, Container)>)
      requires Valid()
      modifies this
      ensures Valid() && calls == old(calls) + 1 && host == old(host) && seen == old(seen) + [host]
      ensures reply.Failed? <==> !schedule(old(calls)).Answered?
      ensures reply.Done? ==> reply.value.0 in host.containers
                              && host.containers[reply.value.0] == reply.value.1 && reply.value.1.name == name
      ensures reply.NotFound? ==> !NameTaken(host, name)
    {
      var fault := schedule(calls);
      if !fault.Answered? {
        reply := Failed;
      } else if NameTaken(host, name) {
        var id: Id :| id in host.containers && host.containers[id].name == name;
        reply := Done((id, host.containers[id]));
      } else {
        reply := NotFound;
      }
      Finish(fault, host);
    }

    method ContainerStop(id: Id) returns (reply: Reply<()>)
      requires Valid()
      modifies this
      ensures Valid() && calls == old(calls) + 1 && seen == old(seen) + [host]
      ensures host == if schedule(old(calls)).Refused? then old(host) else AfterStop(old(host), id)
      ensures reply.Failed? <==> !schedule(old(calls)).Answered?
    {
      var fault := schedule(calls);
      reply := if !fault.Answered? then Failed else if id in host.containers then Done(()) else NotFound;
      Finish(fault, AfterStop(host, id));
    }

    method ContainerRemove(id: Id) returns (reply: Reply<()>)
      requires Valid()
      modifies this
      ensures Valid() && calls == old(calls) + 1 && seen == old(seen) + [host]
      ensures host == if schedule(old(calls)).Refused? then old(host) else AfterRemove(old(host), id)
      ensures reply.Failed? <==> !schedule(old(calls)).Answered?
    {
      var fault := schedule(calls);
      reply := if !fault.Answered? then Failed else if id in host.containers then Done(()) else NotFound;
      Finish(fault, AfterRemove(host, id));
    }

    /** Fails on a name conflict, whatever the schedule says. */
    method ContainerCreate(name: string, image: string, network: string, labels: map<string, string>)
      returns (reply: Reply<Id>)
      requires Valid()
      modifies this
      ensures Valid() && calls == old(calls) + 1 && seen == old(seen) + [host]
      ensures host == if schedule(old(calls)).Refused? then old(host)
                      else AfterCreate(old(host), name, image, network, labels, clock(old(calls)))
      ensures !reply.NotFound?
      ensures reply.Failed? <==> !schedule(old(calls)).Answered? || NameTaken(old(host), name)
      ensures reply.Done? ==> reply.value == old(host).next
    {
      var fault := schedule(calls);
      reply := if !fault.Answered? || NameTaken(host, name) then Failed else Done(host.next);
      Finish(fault, AfterCreate(host, name, image, network, labels, clock(calls)));
    }

    method ContainerStart(id: Id) returns (reply: Reply<()>)
      requires Valid()
      modifies this
      ensures Valid() && calls == old(calls) + 1 && seen == old(seen) + [host]
      ensures host == if schedule(old(calls)).Refused? then old(host) else AfterStart(old(host), id)
      ensures reply.Failed? <==> !schedule(old(calls)).Answered?
      ensures reply.NotFound? ==> id !in old(host).containers
    {
      var fault := schedule(calls);
      reply := if !fault.Answered? then Failed else if id in host.containers then Done(()) else NotFound;
      Finish(fault, AfterStart(host, id));
    }

    /** A container's process exits, restarts or dies by itself between requests. */
    method Drift(id: Id, state: State, status: string)
      requires Valid()
      modifies this
      ensures Valid() && calls == old(calls)
      ensures host == Drifted(old(host), id, state, status)
    {
      host := Drifted(host, id, state, status);
      seen := seen + [host];
    }

    /** Somebody removes a container by hand. */
    method Vanish(id: Id)
      requires Valid()
      modifies this
      ensures Valid() && calls == old(calls)
      ensures host == AfterRemove(old(host), id)
    {
      host := AfterRemove(host, id);
      seen := seen + [host];
    }
  }
}
