/** The identity of a reuse container: its canonical form, and when two specs share it. */
module ReuseIdentity {
  import opened Options
  import opened Records
  import opened Sorting

  datatype Copy = Copy(guestPath: string, hostPath: string)

  datatype Spec = Spec(
    image: string,
    env: seq<Pair>,
    command: Option<seq<string>>,
    exposedPorts: seq<nat>,
    exposedUdpPorts: seq<nat>,
    memoryLimitMb: Option<nat>,
    copies: seq<Copy>,
    diskLimitMb: Option<nat>,
    tmpfsRootMb: Option<nat>,
    networkDisabled: bool)

  /** The canonical form; its last four fields are omitted from the text where they are unset. */
  datatype Canonical = Canonical(
    image: string,
    env: map<string, string>,
    command: seq<string>,
    exposedPorts: seq<nat>,
    memoryLimitMb: Option<nat>,
    copies: seq<(string, string)>,
    diskLimitMb: Option<nat>,
    tmpfsRootMb: Option<nat>,
    networkDisabled: Option<bool>,
    exposedUdpPorts: Option<seq<nat>>)

  predicate ByNumber(a: nat, b: nat) {
    a <= b
  }

  /** compareStrings on the first component: an environment's key, a copy's guest path. */
  predicate ByFirst(a: (string, string), b: (string, string)) {
    TextLe(a.0, b.0)
  }

  lemma ByFirstTotal()
    ensures Total(ByFirst)
  {
    forall x: (string, string), y: (string, string) ensures ByFirst(x, y) || ByFirst(y, x) { TextLeTotal(x.0, y.0); }
    forall x: (string, string), y: (string, string), z: (string, string) | ByFirst(x, y) && ByFirst(y, z)
      ensures ByFirst(x, z)
    {
      TextLeTransitive(x.0, y.0, z.0);
    }
  }

  /** The copies with the content each reads from its host path; None: a file cannot be read. */
  function Contents(copies: seq<Copy>, files: map<string, string>): Option<seq<(string, string)>> {
    if copies == [] then Some([])
    else
      var rest := Contents(copies[1..], files);
      if rest.None? || copies[0].hostPath !in files then None
      else Some([(copies[0].guestPath, files[copies[0].hostPath])] + rest.value)
  }

  /** These are the contents of the files copied, in their order. */
  ghost predicate Read(copies: seq<Copy>, files: map<string, string>, contents: seq<(string, string)>) {
    && |contents| == |copies|
    && forall i | 0 <= i < |copies| ::
         && copies[i].hostPath in files
         && contents[i].0 == copies[i].guestPath && contents[i].1 == files[copies[i].hostPath]
  }

  lemma {:induction false} ContentsExactly(copies: seq<Copy>, files: map<string, string>,
                                           contents: seq<(string, string)>)
    ensures Contents(copies, files) == Some(contents) <==> Read(copies, files, contents)
  {
    if copies != [] {
      if contents != [] {
        ContentsExactly(copies[1..], files, contents[1..]);
        assert contents == [contents[0]] + contents[1..];
        if Read(copies, files, contents) {
          assert forall i | 0 <= i < |copies[1..]| ::
              copies[1..][i] == copies[i + 1] && contents[1..][i] == contents[i + 1];
        }
        if Contents(copies, files) == Some(contents) {
          forall i | 0 <= i < |copies|
            ensures copies[i].hostPath in files
            ensures contents[i].0 == copies[i].guestPath && contents[i].1 == files[copies[i].hostPath]
          {
            if i > 0 { assert copies[i] == copies[1..][i - 1] && contents[i] == contents[1..][i - 1]; }
          }
        }
      }
    }
  }

  lemma {:induction false} UnreadableExactly(copies: seq<Copy>, files: map<string, string>)
    ensures Contents(copies, files).None? <==> exists copy <- copies :: copy.hostPath !in files
  {
    if copies != [] {
      assert copies == [copies[0]] + copies[1..];
      UnreadableExactly(copies[1..], files);
    }
  }

  function Hashed(contents: seq<(string, string)>, sha256: string -> string): (r: seq<(string, string)>)
    ensures |r| == |contents| && forall i | 0 <= i < |r| :: r[i] == (contents[i].0, sha256(contents[i].1))
  {
    if contents == [] then [] else [(contents[0].0, sha256(contents[0].1))] + Hashed(contents[1..], sha256)
  }

  /** canonicalize; None where reading a copied file throws. */
  function Canonicalize(spec: Spec, files: map<string, string>, sha256: string -> string): Option<Canonical> {
    var contents := Contents(spec.copies, files);
    if contents.None? then None
    else Some(Canonical(
      spec.image,
      Record(Sort(spec.env, ByFirst)),
      if spec.command.Some? then spec.command.value else [],
      Sort(spec.exposedPorts, ByNumber),
      spec.memoryLimitMb,
      Sort(Hashed(contents.value, sha256), ByFirst),
      spec.diskLimitMb,
      spec.tmpfsRootMb,
      if spec.networkDisabled then Some(true) else None,
      if spec.exposedUdpPorts != [] then Some(Sort(spec.exposedUdpPorts, ByNumber)) else None))
  }

  ghost predicate Injective(sha256: string -> string) {
    forall x, y | sha256(x) == sha256(y) :: x == y
  }

  ghost predicate UniquePaths(contents: seq<(string, string)>) {
    forall i, j | 0 <= i < j < |contents| :: contents[i].0 != contents[j].0
  }

  /** The same but for the order of variables, ports and copies, an empty command for none, and
      what __proto__ is set to. */
  ghost predicate Agree(a: Spec, b: Spec, aContents: seq<(string, string)>, bContents: seq<(string, string)>) {
    && a.image == b.image
    && SamePairs(a.env, b.env)
    && (if a.command.Some? then a.command.value else []) == (if b.command.Some? then b.command.value else [])
    && multiset(a.exposedPorts) == multiset(b.exposedPorts)
    && multiset(a.exposedUdpPorts) == multiset(b.exposedUdpPorts)
    && a.memoryLimitMb == b.memoryLimitMb && a.diskLimitMb == b.diskLimitMb && a.tmpfsRootMb == b.tmpfsRootMb
    && a.networkDisabled == b.networkDisabled
    && multiset(aContents) == multiset(bContents)
  }

  lemma UniqueWhateverTheOrder(s: seq<(string, string)>, t: seq<(string, string)>)
    requires multiset(s) == multiset(t) && UniquePaths(s)
    ensures UniquePaths(t)
  {
    forall i, j | 0 <= i < j < |t|
      ensures t[i].0 != t[j].0
    {
      if t[i].0 == t[j].0 {
        assert t[i] in multiset(t) && t[j] in multiset(t);
        assert t[i] in s && t[j] in s;
        assert t[i] == t[j];
        OccursTwice(t, i, j);
        OccursOnce(s, t[i]);
      }
    }
  }

  lemma OccursTwice(t: seq<(string, string)>, i: nat, j: nat)
    requires i < j < |t| && t[i] == t[j]
    ensures multiset(t)[t[i]] >= 2
  {
    assert t == t[..j] + [t[j]] + t[j + 1..];
    assert t[..j][i] == t[i];
    assert t[i] in multiset(t[..j]);
  }

  lemma {:induction false} OccursOnce(s: seq<(string, string)>, x: (string, string))
    requires UniquePaths(s)
    ensures multiset(s)[x] <= 1
  {
    if s != [] {
      assert s == [s[0]] + s[1..];
      OccursOnce(s[1..], x);
      assert x == s[0] ==> x !in multiset(s[1..]);
    }
  }

  /** Sorting by key changes the record of no list without repeated keys. */
  lemma SortedRecord(env: seq<Pair>)
    requires UniqueKeys(env)
    ensures UniqueKeys(Sort(env, ByFirst)) && Record(Sort(env, ByFirst)) == Record(env)
  {
    var sorted := Sort(env, ByFirst);
    UniqueWhateverTheOrder(env, sorted);
    forall pair: Pair ensures pair in sorted <==> pair in env {
      assert pair in multiset(sorted) <==> pair in multiset(env);
    }
    RecordsAgree(sorted, env);
  }

  lemma UniqueDoNotTie(s: seq<(string, string)>)
    requires UniquePaths(s)
    ensures NoTies(s, ByFirst)
  {
    forall x, y | x in s && y in s && ByFirst(x, y) && ByFirst(y, x)
      ensures x == y
    {
      TextLeTotal(x.0, y.0);
      var i, j :| 0 <= i < |s| && 0 <= j < |s| && s[i] == x && s[j] == y;
      assert i == j;
    }
  }

  /** Hashing content by content neither merges nor splits copies. */
  lemma OccurrencesOfCons<T>(head: T, rest: seq<T>, x: T)
    ensures multiset([head] + rest)[x] == multiset(rest)[x] + if x == head then 1 else 0
  {
  }

  lemma {:induction false} HashedOccurrences(s: seq<(string, string)>, sha256: string -> string, x: (string, string))
    requires Injective(sha256)
    ensures multiset(Hashed(s, sha256))[(x.0, sha256(x.1))] == multiset(s)[x]
  {
    if s != [] {
      var head := (s[0].0, sha256(s[0].1));
      HashedOccurrences(s[1..], sha256, x);
      OccurrencesOfCons(s[0], s[1..], x);
      OccurrencesOfCons(head, Hashed(s[1..], sha256), (x.0, sha256(x.1)));
      assert s == [s[0]] + s[1..];
    }
  }

  lemma HashedAlike(s: seq<(string, string)>, t: seq<(string, string)>, sha256: string -> string)
    requires Injective(sha256)
    ensures multiset(Hashed(s, sha256)) == multiset(Hashed(t, sha256)) <==> multiset(s) == multiset(t)
  {
    var hs, ht := Hashed(s, sha256), Hashed(t, sha256);
    if multiset(hs) == multiset(ht) {
      forall x ensures multiset(s)[x] == multiset(t)[x] {
        HashedOccurrences(s, sha256, x);
        HashedOccurrences(t, sha256, x);
      }
    }
    if multiset(s) == multiset(t) {
      forall y ensures multiset(hs)[y] == multiset(ht)[y] {
        if y in hs {
          var i :| 0 <= i < |hs| && hs[i] == y;
          HashedOccurrences(s, sha256, s[i]);
          HashedOccurrences(t, sha256, s[i]);
        } else if y in ht {
          var i :| 0 <= i < |ht| && ht[i] == y;
          HashedOccurrences(s, sha256, t[i]);
          HashedOccurrences(t, sha256, t[i]);
        }
      }
    }
  }

  lemma CopiesAlike(s: seq<(string, string)>, t: seq<(string, string)>, sha256: string -> string)
    requires Injective(sha256) && UniquePaths(s)
    ensures Sort(Hashed(s, sha256), ByFirst) == Sort(Hashed(t, sha256), ByFirst) <==> multiset(s) == multiset(t)
  {
    ByFirstTotal();
    UniqueDoNotTie(Hashed(s, sha256));
    SortsAlike(Hashed(s, sha256), Hashed(t, sha256), ByFirst);
    HashedAlike(s, t, sha256);
  }

  lemma PortsAlike(a: seq<nat>, b: seq<nat>)
    ensures Sort(a, ByNumber) == Sort(b, ByNumber) <==> multiset(a) == multiset(b)
    ensures a == [] <==> Sort(a, ByNumber) == []
  {
    SortsAlike(a, b, ByNumber);
    assert |Sort(a, ByNumber)| == |multiset(Sort(a, ByNumber))| == |multiset(a)| == |a|;
  }

  lemma UdpPortsAlike(a: seq<nat>, b: seq<nat>)
    ensures (if a != [] then Some(Sort(a, ByNumber)) else None) == (if b != [] then Some(Sort(b, ByNumber)) else None)
       <==> multiset(a) == multiset(b)
  {
    PortsAlike(a, b);
    assert |multiset(a)| == |a| && |multiset(b)| == |b|;
  }

  /** The environment of a canonical form: every variable with its value, but for __proto__. */
  lemma CanonicalEnv(spec: Spec, files: map<string, string>, sha256: string -> string, key: string, value: string)
    requires UniqueKeys(spec.env) && Canonicalize(spec, files, sha256).Some?
    ensures var env := Canonicalize(spec, files, sha256).value.env;
            key in env && env[key] == value <==> key != "__proto__" && (key, value) in spec.env
  {
    SortedRecord(spec.env);
    RecordOfUnique(spec.env, key, value);
  }

  /** Its ports, of either protocol: all of them, ascending; no list where no UDP port is. */
  lemma CanonicalPorts(spec: Spec, files: map<string, string>, sha256: string -> string)
    requires Canonicalize(spec, files, sha256).Some?
    ensures var c := Canonicalize(spec, files, sha256).value;
            && Sorted(c.exposedPorts, ByNumber) && multiset(c.exposedPorts) == multiset(spec.exposedPorts)
            && (c.exposedUdpPorts.None? <==> spec.exposedUdpPorts == [])
            && (c.exposedUdpPorts.Some? ==>
                  && Sorted(c.exposedUdpPorts.value, ByNumber)
                  && multiset(c.exposedUdpPorts.value) == multiset(spec.exposedUdpPorts))
  {
    SortSorted(spec.exposedPorts, ByNumber);
    SortSorted(spec.exposedUdpPorts, ByNumber);
  }

  /** Its copies: each path with the hash of the content read, in the order of the paths. */
  lemma CanonicalCopies(spec: Spec, files: map<string, string>, sha256: string -> string,
                        contents: seq<(string, string)>)
    requires Read(spec.copies, files, contents) && Canonicalize(spec, files, sha256).Some?
    ensures var c := Canonicalize(spec, files, sha256).value;
            Sorted(c.copies, ByFirst) && multiset(c.copies) == multiset(Hashed(contents, sha256))
  {
    ContentsExactly(spec.copies, files, contents);
    ByFirstTotal();
    SortSorted(Hashed(contents, sha256), ByFirst);
  }

  /** And the rest as it is, an unset command for an empty one and false left out. */
  lemma CanonicalRest(spec: Spec, files: map<string, string>, sha256: string -> string)
    requires Canonicalize(spec, files, sha256).Some?
    ensures var c := Canonicalize(spec, files, sha256).value;
            && c.image == spec.image && c.memoryLimitMb == spec.memoryLimitMb
            && c.diskLimitMb == spec.diskLimitMb && c.tmpfsRootMb == spec.tmpfsRootMb
            && (spec.command.Some? ==> c.command == spec.command.value) && (spec.command.None? ==> c.command == [])
            && (c.networkDisabled == Some(true) <==> spec.networkDisabled)
            && (c.networkDisabled.None? <==> !spec.networkDisabled)
  {}

  /** And there is none exactly if some copied file cannot be read. */
  lemma NoCanonicalForm(spec: Spec, files: map<string, string>, sha256: string -> string)
    ensures Canonicalize(spec, files, sha256).None? <==> exists copy <- spec.copies :: copy.hostPath !in files
  {
    UnreadableExactly(spec.copies, files);
  }

  /** Two specs with the same canonical form are the same container, and only those: nothing
      that matters is dropped, and nothing that does not matter is kept. Each is read with the
      files as they are then. */
  lemma SameIdentityExactlyWhenTheyAgree(a: Spec, b: Spec, aFiles: map<string, string>, bFiles: map<string, string>,
                                         sha256: string -> string, aRead: seq<(string, string)>,
                                         bRead: seq<(string, string)>)
    requires Injective(sha256) && UniqueKeys(a.env) && UniqueKeys(b.env)
    requires Read(a.copies, aFiles, aRead) && Read(b.copies, bFiles, bRead) && UniquePaths(aRead)
    ensures Canonicalize(a, aFiles, sha256) == Canonicalize(b, bFiles, sha256) <==> Agree(a, b, aRead, bRead)
  {
    ContentsExactly(a.copies, aFiles, aRead);
    ContentsExactly(b.copies, bFiles, bRead);
    SortedRecord(a.env);
    SortedRecord(b.env);
    RecordsAgree(a.env, b.env);
    PortsAlike(a.exposedPorts, b.exposedPorts);
    UdpPortsAlike(a.exposedUdpPorts, b.exposedUdpPorts);
    CopiesAlike(aRead, bRead, sha256);
  }

  /** A guest port exposed over TCP and one exposed over UDP are never taken for each other. */
  lemma ProtocolsKeptApart(a: Spec, b: Spec, files: map<string, string>, sha256: string -> string, port: nat)
    requires Canonicalize(a, files, sha256).Some?
    requires Canonicalize(a, files, sha256) == Canonicalize(b, files, sha256)
    ensures port in a.exposedPorts <==> port in b.exposedPorts
    ensures port in a.exposedUdpPorts <==> port in b.exposedUdpPorts
  {
    PortsAlike(a.exposedPorts, b.exposedPorts);
    UdpPortsAlike(a.exposedUdpPorts, b.exposedUdpPorts);
    assert port in a.exposedPorts <==> port in multiset(a.exposedPorts);
    assert port in b.exposedPorts <==> port in multiset(b.exposedPorts);
    assert port in a.exposedUdpPorts <==> port in multiset(a.exposedUdpPorts);
    assert port in b.exposedUdpPorts <==> port in multiset(b.exposedUdpPorts);
  }
}
