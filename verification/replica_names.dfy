/** Container names `service-index` and how a replica index is read back from a container. */
module ReplicaNames {
  import opened GoText

  const LABEL_FUNCTION := "com.docker-faas.function"
  const LABEL_TYPE := "com.docker-faas.type"
  const LABEL_REPLICA := "com.docker-faas.replica"
  const LABEL_NETWORK := "com.docker-faas.network.name"

  predicate IsAlphanumeric(c: char) {
    'a' <= c <= 'z' || 'A' <= c <= 'Z' || '0' <= c <= '9'
  }

  /** The pattern every handler checks function names against. */
  predicate ValidServiceName(s: string) {
    s != "" && IsAlphanumeric(s[0])
    && forall i | 0 <= i < |s| :: IsAlphanumeric(s[i]) || s[i] in "_.-"
  }

  /** ASCII codes of the digits and letters. */
  predicate AlphanumericCode(code: int) {
    48 <= code <= 57 || 65 <= code <= 90 || 97 <= code <= 122
  }

  /** A name is refused exactly if it is empty, begins with something other than a digit or letter, or has a character
      that is none and no dash (code 45), dot (46) or underscore (95) either. */
  lemma RefusedNames(s: string)
    ensures !ValidServiceName(s) <==>
            s == "" || !AlphanumericCode(s[0] as int)
            || exists i :: 0 <= i < |s| && !AlphanumericCode(s[i] as int) && s[i] as int !in {45, 46, 95}
  {
    assert forall c: char :: IsAlphanumeric(c) <==> AlphanumericCode(c as int);
    assert forall c: char :: c in "_.-" <==> c as int in {45, 46, 95};
  }

  function ContainerName(service: string, index: nat): string {
    service + "-" + Decimal(index)
  }

  function ParseReplicaIndex(name: string): Option<int> {
    var trimmed := TrimPrefix(TrimSpace(name), "/");
    var sep := LastIndex(trimmed, '-');
    if sep == -1 || sep == |trimmed| - 1 then None
    else Atoi(trimmed[sep + 1..])
  }

  function FirstParsedName(names: seq<string>): Option<int> {
    if names == [] then None
    else if ParseReplicaIndex(names[0]).Some? then ParseReplicaIndex(names[0])
    else FirstParsedName(names[1..])
  }

  /** The replica label wins when it parses; otherwise the first name that parses. */
  function ReplicaIndex(labels: map<string, string>, names: seq<string>): Option<int> {
    if LABEL_REPLICA in labels && Atoi(TrimSpace(labels[LABEL_REPLICA])).Some?
    then Atoi(TrimSpace(labels[LABEL_REPLICA]))
    else FirstParsedName(names)
  }

  lemma LastDash(service: string, index: nat)
    ensures LastIndex(ContainerName(service, index), '-') == |service|
  {
    var name := ContainerName(service, index);
    assert name[|service|] == '-';
    forall k | |service| < k < |name|
      ensures name[k] != '-'
    {
      assert name[k] == Decimal(index)[k - |service| - 1];
    }
  }

  /** A name determines its service and its index, whatever dashes the service contains. */
  lemma NamesInjective(s1: string, i1: nat, s2: string, i2: nat)
    requires ContainerName(s1, i1) == ContainerName(s2, i2)
    ensures s1 == s2 && i1 == i2
  {
    LastDash(s1, i1);
    LastDash(s2, i2);
    var name := ContainerName(s1, i1);
    assert name[..|s1|] == s1 && name[..|s2|] == s2;
    assert name[|s1| + 1..] == Decimal(i1) && name[|s2| + 1..] == Decimal(i2);
    DecimalInjective(i1, i2);
  }

  lemma ParsesAfterTrim(text: string, service: string, index: nat)
    requires TrimPrefix(TrimSpace(text), "/") == ContainerName(service, index) && index <= MAX_INT
    ensures ParseReplicaIndex(text) == Some(index)
  {
    hide TrimSpace, TrimPrefix, Decimal, Atoi, LastIndex;
    LastDash(service, index);
    AtoiDecimal(index);
    assert ContainerName(service, index)[|service| + 1..] == Decimal(index);
  }

  /** A created name parses back to its index: with the slash Docker puts in front for any service, and without it
      for a valid one. */
  lemma NameParsesBack(service: string, index: nat)
    requires index <= MAX_INT
    ensures ParseReplicaIndex("/" + ContainerName(service, index)) == Some(index)
    ensures ValidServiceName(service) ==> ParseReplicaIndex(ContainerName(service, index)) == Some(index)
  {
    hide ParseReplicaIndex, Decimal, TrimSpace;
    var name := ContainerName(service, index);
    assert name[|name| - 1] == Decimal(index)[|Decimal(index)| - 1];
    TrimSpaceKeeps("/" + name);
    assert ("/" + name)[1..] == name;
    ParsesAfterTrim("/" + name, service, index);
    if ValidServiceName(service) {
      assert name[0] == service[0];
      TrimSpaceKeeps(name);
      ParsesAfterTrim(name, service, index);
    }
  }

  /** In general the index is what follows the last dash, if that is a number; without a dash there is none. */
  lemma ParseOf(front: string, last: string)
    requires '-' !in last && (front == "" || (!IsSpace(front[0]) && front[0] != '/'))
    requires last == "" || !IsSpace(last[|last| - 1])
    ensures front != "" ==> ParseReplicaIndex(front + "-" + last) == (if last == "" then None else Atoi(last))
    ensures last != "" && !IsSpace(last[0]) && last[0] != '/' ==> ParseReplicaIndex(last) == None
  {
    hide TrimSpace, Atoi, IsSpace;
    var name := front + "-" + last;
    if front != "" {
      assert name[0] == front[0] && name[|name| - 1] == if last == "" then '-' else last[|last| - 1];
      assert !IsSpace('-') by { DashIsVisible(); }
      TrimSpaceKeeps(name);
      assert LastIndex(name, '-') == |front| by {
        assert name[|front|] == '-' && forall k | |front| < k < |name| :: name[k] == last[k - |front| - 1];
      }
      assert name[|front| + 1..] == last;
      assert !("/" <= name);
    }
    if last != "" && !IsSpace(last[0]) && last[0] != '/' {
      TrimSpaceKeeps(last);
      assert !("/" <= last) && LastIndex(last, '-') == -1;
    }
  }

  lemma DashIsVisible()
    ensures !IsSpace('-')
  {
  }

  /** Without a replica label that parses, the names are tried in turn. */
  lemma IndexFallsBack(labels: map<string, string>, name: string, rest: seq<string>)
    requires LABEL_REPLICA in labels ==> Atoi(TrimSpace(labels[LABEL_REPLICA])).None?
    ensures ReplicaIndex(labels, []) == None
    ensures ReplicaIndex(labels, [name] + rest) ==
            if ParseReplicaIndex(name).Some? then ParseReplicaIndex(name) else ReplicaIndex(labels, rest)
  {
    assert ([name] + rest)[1..] == rest;
  }

  /** The label a created container carries names its index, so the label is read back as written. */
  lemma LabelParsesBack(labels: map<string, string>, names: seq<string>, index: nat)
    requires LABEL_REPLICA in labels && labels[LABEL_REPLICA] == Decimal(index)
    requires index <= MAX_INT
    ensures ReplicaIndex(labels, names) == Some(index)
  {
    AtoiDecimal(index);
    TrimSpaceKeeps(Decimal(index));
  }
}
