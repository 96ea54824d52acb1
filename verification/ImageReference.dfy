/** Image references: the decomposition the modules use, and the one the docker backend uses. */
module ImageReference {
  import opened Options
  import opened Search

  /** [registry/]repository[:tag][@digest] */
  datatype Reference =
    Reference(registry: Option<string>, repository: string, tag: Option<string>, digest: Option<string>) {

    /** What is left of the reference once its registry is off. */
    function Tagged(): string {
      if tag.Some? then repository + [':'] + tag.value else repository
    }

    function WithoutDigest(): string {
      if registry.Some? then registry.value + ['/'] + Tagged() else Tagged()
    }

    function Text(): string {
      if digest.Some? then WithoutDigest() + ['@'] + digest.value else WithoutDigest()
    }
  }

  /** A first path segment that names a registry. */
  predicate IsRegistry(segment: string) {
    '.' in segment || ':' in segment || segment == "localhost"
  }

  function SplitDigest(ref: string): (string, Option<string>) {
    var at := LastIndexOf(ref, '@');
    if at == -1 then (ref, None) else (ref[..at], Some(ref[at + 1..]))
  }

  function SplitRegistry(ref: string): (Option<string>, string) {
    var slash := IndexOf(ref, '/');
    if slash == |ref| then (None, ref)
    else if IsRegistry(ref[..slash]) then (Some(ref[..slash]), ref[slash + 1..])
    else (None, ref)
  }

  function SplitTag(ref: string): (string, Option<string>) {
    var lastSlash, lastColon := LastIndexOf(ref, '/'), LastIndexOf(ref, ':');
    if lastColon > lastSlash then (ref[..lastColon], Some(ref[lastColon + 1..])) else (ref, None)
  }

  function ParseReference(image: string): Reference {
    var (withoutDigest, digest) := SplitDigest(image);
    var (registry, rest) := SplitRegistry(withoutDigest);
    var (repository, tag) := SplitTag(rest);
    Reference(registry, repository, tag, digest)
  }

  /** No registry would be split off this text: its first segment has no dot and no port. */
  predicate NoRegistry(rest: string) {
    '/' !in rest
    || var segment := rest[..IndexOf(rest, '/')]; '.' !in segment && ':' !in segment && segment != "localhost"
  }

  /** No tag would be split off this text. */
  predicate NoTag(repository: string) {
    LastIndexOf(repository, ':') <= LastIndexOf(repository, '/')
  }

  /** The references that parsing can answer. */
  predicate Possible(r: Reference) {
    && (if r.digest.Some? then '@' !in r.digest.value else '@' !in r.WithoutDigest())
    && (if r.registry.Some?
        then '/' !in r.registry.value
             && ('.' in r.registry.value || ':' in r.registry.value || r.registry.value == "localhost")
        else NoRegistry(r.Tagged()))
    && (if r.tag.Some? then '/' !in r.tag.value && ':' !in r.tag.value else NoTag(r.repository))
  }

  lemma NotLater(text: string, c: char)
    ensures c !in text[LastIndexOf(text, c) + 1..]
  {}

  lemma SplitTagMeaning(ref: string, repository: string, tag: Option<string>)
    ensures SplitTag(ref) == (repository, tag) <==>
              && ref == Reference(None, repository, tag, None).Tagged()
              && (if tag.Some? then '/' !in tag.value && ':' !in tag.value else NoTag(repository))
  {
    var lastSlash, lastColon := LastIndexOf(ref, '/'), LastIndexOf(ref, ':');
    if lastColon > lastSlash {
      assert ref == ref[..lastColon] + [':'] + ref[lastColon + 1..];
      NotLater(ref, ':');
      assert '/' !in ref[lastColon + 1..];
    }
    if tag.Some? && ref == repository + [':'] + tag.value && '/' !in tag.value && ':' !in tag.value {
      SplitAtLast(repository, ':', tag.value);
      assert forall j | |repository| < j < |ref| :: ref[j] == tag.value[j - |repository| - 1];
    }
  }

  lemma SplitRegistryMeaning(ref: string, registry: Option<string>, rest: string)
    ensures SplitRegistry(ref) == (registry, rest) <==>
              && ref == (if registry.Some? then registry.value + ['/'] + rest else rest)
              && (if registry.Some? then '/' !in registry.value && IsRegistry(registry.value) else NoRegistry(rest))
  {
    var slash := IndexOf(ref, '/');
    if slash < |ref| {
      assert ref == ref[..slash] + ['/'] + ref[slash + 1..];
    }
    if registry.Some? && ref == registry.value + ['/'] + rest && '/' !in registry.value {
      SplitAtFirst(registry.value, '/', rest);
    }
  }

  lemma SplitDigestMeaning(ref: string, rest: string, digest: Option<string>)
    ensures SplitDigest(ref) == (rest, digest) <==>
              && ref == (if digest.Some? then rest + ['@'] + digest.value else rest)
              && (if digest.Some? then '@' !in digest.value else '@' !in rest)
  {
    var at := LastIndexOf(ref, '@');
    if at >= 0 {
      assert ref == ref[..at] + ['@'] + ref[at + 1..];
      NotLater(ref, '@');
    }
    if digest.Some? && ref == rest + ['@'] + digest.value && '@' !in digest.value {
      SplitAtLast(rest, '@', digest.value);
    }
  }

  /** Parsing loses nothing of any string, and answers r for exactly the text that r stands for
      - provided no part of r would itself be read as another part. */
  lemma ParseMeaning(image: string, r: Reference)
    ensures ParseReference(image) == r <==> Possible(r) && image == r.Text()
  {
    var (withoutDigest, digest) := SplitDigest(image);
    SplitDigestMeaning(image, withoutDigest, digest);
    SplitDigestMeaning(image, r.WithoutDigest(), r.digest);
    var (registry, rest) := SplitRegistry(withoutDigest);
    SplitRegistryMeaning(withoutDigest, registry, rest);
    SplitRegistryMeaning(r.WithoutDigest(), r.registry, r.Tagged());
    var (repository, tag) := SplitTag(rest);
    SplitTagMeaning(rest, repository, tag);
    SplitTagMeaning(r.Tagged(), r.repository, r.tag);
  }

  lemma ParseIsLossless(image: string)
    ensures ParseReference(image).Text() == image
  {
    ParseMeaning(image, ParseReference(image));
  }

  /** The docker backend's own split into repository and tag, for pulling. */
  function SplitRepoTag(image: string): (string, string) {
    if '@' in image then (image, "")
    else
      var slashIdx := LastIndexOf(image, '/') + 1;
      var relColon := LastIndexOf(image[slashIdx..], ':');
      if relColon == -1 then (image, "latest")
      else (image[..slashIdx + relColon], image[slashIdx + relColon + 1..])
  }

  lemma LastSlashOfTagged(repository: string, tag: string)
    requires '/' !in tag
    ensures LastIndexOf(repository + [':'] + tag, '/') == LastIndexOf(repository, '/')
  {
    LastInConcat(repository + [':'], tag, '/');
    LastInConcat(repository, [':'], '/');
  }

  lemma LastColonOfTagged(repository: string, tag: string, from: nat)
    requires ':' !in tag && from <= |repository|
    ensures LastIndexOf((repository + [':'] + tag)[from..], ':') == |repository| - from
  {
    var name := repository[from..];
    assert (repository + [':'] + tag)[from..] == name + [':'] + tag;
    SplitAtLast(name, ':', tag);
  }

  lemma TagPosition(image: string, repository: string, tag: string) returns (slashIdx: nat)
    requires image == repository + [':'] + tag && '/' !in tag && ':' !in tag
    ensures slashIdx == LastIndexOf(image, '/') + 1 && slashIdx <= |repository|
    ensures LastIndexOf(image[slashIdx..], ':') == |repository| - slashIdx
  {
    slashIdx := LastIndexOf(repository, '/') + 1;
    LastSlashOfTagged(repository, tag);
    LastColonOfTagged(repository, tag, slashIdx);
  }

  lemma SplitRepoTagAt(image: string, slashIdx: nat, colon: nat)
    requires '@' !in image && slashIdx == LastIndexOf(image, '/') + 1
    requires slashIdx <= colon < |image| && LastIndexOf(image[slashIdx..], ':') == colon - slashIdx
    ensures SplitRepoTag(image) == (image[..colon], image[colon + 1..])
  {}

  lemma SplitRepoTagOfTagged(image: string, repository: string, tag: string)
    requires image == repository + [':'] + tag
    requires '/' !in tag && ':' !in tag && '@' !in image
    ensures SplitRepoTag(image) == (repository, tag)
  {
    var slashIdx := TagPosition(image, repository, tag);
    SplitRepoTagAt(image, slashIdx, |repository|);
    assert image[..|repository|] == repository;
    assert image[|repository| + 1..] == tag;
  }

  lemma SplitRepoTagOfUntagged(image: string)
    requires NoTag(image) && '@' !in image
    ensures SplitRepoTag(image) == (image, "latest")
  {
    var slashIdx := LastIndexOf(image, '/') + 1;
    assert forall j | slashIdx <= j < |image| :: image[j] != ':';
    assert ':' !in image[slashIdx..];
  }

  lemma RegistryHidesNoTag(registry: string, repository: string)
    requires NoTag(repository)
    ensures NoTag(registry + ['/'] + repository)
  {
    var front := registry + ['/'];
    LastInConcat(front, repository, '/');
    LastInConcat(front, repository, ':');
    LastInConcat(registry, ['/'], '/');
    LastInConcat(registry, ['/'], ':');
  }

  lemma DigestFree(image: string)
    requires '@' !in image
    ensures ParseReference(image).digest.None?
  {}

  lemma TagLast(r: Reference)
    requires r.digest.None? && r.tag.Some?
    ensures r.Text() == r.(tag := None).Text() + [':'] + r.tag.value
  {
    if r.registry.Some? {
      var front := r.registry.value + ['/'];
      assert front + (r.repository + [':'] + r.tag.value) == front + r.repository + [':'] + r.tag.value;
    }
  }

  /** On every reference without a digest the two agree, a missing tag read as latest. */
  lemma DockerAgrees(image: string)
    requires '@' !in image
    ensures var r := ParseReference(image);
            SplitRepoTag(image) == (r.(tag := None).Text(), if r.tag.Some? then r.tag.value else "latest")
  {
    var r := ParseReference(image);
    ParseMeaning(image, r);
    DigestFree(image);
    if r.tag.Some? {
      TagLast(r);
      SplitRepoTagOfTagged(image, r.(tag := None).Text(), r.tag.value);
    } else {
      if r.registry.Some? { RegistryHidesNoTag(r.registry.value, r.repository); }
      SplitRepoTagOfUntagged(image);
    }
  }
}
