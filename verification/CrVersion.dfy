/**
 The engine compatibility version: discovering the running operator
 (internal/provider/operator_version.go), converging behind an approval
 (internal/provider/provider.go) and the preflight check that bounds how long
 that may be deferred (internal/provider/upgrade.go).

 Version texts are read by the library's parser, which is a parameter here:
 every result holds for any parser.
 */
module CrVersion {
  import opened Text

  /**
   A parsed version. pre is 0 for a release and negative for a pre-release, in
   the library's order of pre-release texts, which is dense and fits the reals.
   */
  datatype Version = Version(major: int, minor: int, patch: int, pre: real)

  type Parser = string -> Option<Version>

  const SKEW_WINDOW_MINORS := 3
  const OPERATOR_REPO := "percona/percona-server-mongodb-operator"

  predicate Less(a: Version, b: Version) {
    || a.major < b.major
    || (a.major == b.major && (
         || a.minor < b.minor
         || (a.minor == b.minor && (
              || a.patch < b.patch
              || (a.patch == b.patch && a.pre < b.pre)))))
  }

  /** Unparsable versions are never less: they hold rather than churn. */
  predicate VersionLessThan(parse: Parser, a: string, b: string) {
    parse(a).Some? && parse(b).Some? && Less(parse(a).value, parse(b).value)
  }

  // ------------------------------------------------------------------
  // Operator discovery
  // ------------------------------------------------------------------

  /** The version tag of an image reference without digest. */
  function BareImageTag(image: string): Option<string> {
    var i := LastIndex(image, ':');
    var tagged := i >= 0 && '/' !in image[i..];
    var repo := if tagged then image[..i] else image;
    var tag := if tagged then image[i + 1..] else "";
    if tag == "" || !HasSuffix(repo, OPERATOR_REPO) then None else Some(WithoutV(tag))
  }

  function WithoutV(tag: string): string {
    if tag != "" && tag[0] == 'v' then tag[1..] else tag
  }

  function OperatorImageTag(image: string): Option<string> {
    BareImageTag(Split(image, '@')[0])
  }

  lemma TagAfterLastColon(repo: string, tag: string)
    requires HasSuffix(repo, OPERATOR_REPO)
    requires tag != "" && ':' !in tag && '/' !in tag
    ensures BareImageTag(repo + ":" + tag) == Some(WithoutV(tag))
  {
    var image := repo + ":" + tag;
    assert image[..|repo|] == repo && image[|repo|] == ':' && image[|repo| + 1..] == tag;
    assert forall k :: |repo| < k < |image| ==> image[k] == tag[k - |repo| - 1];
    LastIndexUnique(image, ':', |repo|);
    assert image[|repo|..] == ":" + tag;
  }

  /** A tagged operator image gives its tag without one leading v, whatever registry or port surrounds it. */
  lemma TagOfOperatorImage(repo: string, tag: string)
    requires HasSuffix(repo, "percona/percona-server-mongodb-operator") && '@' !in repo
    requires tag != "" && ':' !in tag && '/' !in tag && '@' !in tag
    ensures tag[0] != 'v' ==> OperatorImageTag(repo + ":" + tag) == Some(tag)
    ensures tag[0] == 'v' ==> OperatorImageTag(repo + ":" + tag) == Some(tag[1..])
  {
    SplitAtom(repo + ":" + tag, '@');
    TagAfterLastColon(repo, tag);
  }

  /** A digest does not matter. */
  lemma DigestIsIgnored(image: string, digest: string)
    requires '@' !in image
    ensures OperatorImageTag(image + "@" + digest) == OperatorImageTag(image)
  {
    SplitAtom(image, '@');
    SplitPrepend(image, digest, '@');
    assert image + "@" + digest == image + ['@'] + digest;
  }

  /** An image of the operator's repository, with a tag. */
  ghost predicate TaggedOperator(image: string, repo: string, tag: string) {
    && image == repo + ":" + tag && HasSuffix(repo, "percona/percona-server-mongodb-operator")
    && tag != "" && ':' !in tag && '/' !in tag
  }

  lemma TaggedParts(image: string, i: nat)
    requires i < |image| && image[i] == ':' && '/' !in image[i..] && forall k :: i < k < |image| ==> image[k] != ':'
    ensures image == image[..i] + ":" + image[i + 1..]
    ensures ':' !in image[i + 1..] && '/' !in image[i + 1..]
  {
    var tag := image[i + 1..];
    forall k | 0 <= k < |tag| ensures tag[k] != ':' && tag[k] != '/' {
      assert tag[k] == image[i + 1 + k] && image[i..][k + 1] == tag[k] && tag[k] in image[i..];
    }
  }

  /** No other image gives a tag. */
  lemma OnlyOperatorImagesGiveTags(image: string) returns (repo: string, tag: string)
    requires '@' !in image && OperatorImageTag(image).Some?
    ensures TaggedOperator(image, repo, tag)
  {
    SplitAtom(image, '@');
    var i := LastIndex(image, ':');
    TaggedParts(image, i);
    repo, tag := image[..i], image[i + 1..];
  }

  /** The tags of the operator images among these, in order. */
  function Tags(images: seq<string>): seq<string> {
    if images == [] then []
    else
      var tag := OperatorImageTag(images[0]);
      (if tag.Some? then [tag.value] else []) + Tags(images[1..])
  }

  /** The tags in the containers of the listed Deployments, in order. */
  function AllTags(deployments: seq<seq<string>>): seq<string> {
    if deployments == [] then [] else Tags(deployments[0]) + AllTags(deployments[1..])
  }

  lemma FirstImageTag(images: seq<string>, tag: string)
    requires images != []
    ensures tag in Tags(images) <==> OperatorImageTag(images[0]) == Some(tag) || tag in Tags(images[1..])
  {
  }

  lemma {:induction false} TagsExact(images: seq<string>, tag: string)
    ensures tag in Tags(images) <==> exists image :: image in images && OperatorImageTag(image) == Some(tag)
  {
    if images != [] {
      TagsExact(images[1..], tag);
      FirstImageTag(images, tag);
      assert forall image :: image in images <==> image == images[0] || image in images[1..];
    }
  }

  /** Some container of some Deployment runs the operator at this tag. */
  ghost predicate Runs(deployments: seq<seq<string>>, tag: string) {
    exists images, image :: images in deployments && image in images && OperatorImageTag(image) == Some(tag)
  }

  lemma {:induction false} AllTagsExact(deployments: seq<seq<string>>, tag: string)
    ensures tag in AllTags(deployments) <==> Runs(deployments, tag)
  {
    if deployments != [] {
      AllTagsExact(deployments[1..], tag);
      TagsExact(deployments[0], tag);
      assert forall images :: images in deployments <==> images == deployments[0] || images in deployments[1..];
    }
  }

  /** The version agreed on after further tags; a conflict is a failure. */
  function Agreed(version: string, tags: seq<string>): Result<string>
    decreases |tags|
  {
    if tags == [] then Success(version)
    else if version != "" && version != tags[0] then Failure
    else Agreed(tags[0], tags[1..])
  }

  lemma {:induction false} AgreedConcat(version: string, a: seq<string>, b: seq<string>)
    ensures Agreed(version, a + b)
            == match Agreed(version, a) { case Failure => Failure case Success(v) => Agreed(v, b) }
    decreases |a|
  {
    if a == [] {
      assert a + b == b;
    } else {
      assert (a + b)[1..] == a[1..] + b;
      AgreedConcat(a[0], a[1..], b);
    }
  }

  /** The inner loop: the containers of one Deployment. */
  method AgreeOnImages(initial: string, images: seq<string>) returns (r: Result<string>)
    ensures r == Agreed(initial, Tags(images))
  {
    var version := initial;
    for j := 0 to |images|
      invariant Agreed(initial, Tags(images)) == Agreed(version, Tags(images[j..]))
    {
      assert images[j..][1..] == images[j + 1..];
      var tag := OperatorImageTag(images[j]);
      ghost var rest := Tags(images[j + 1..]);
      if tag.None? {
        assert Tags(images[j..]) == [] + rest == rest;
        continue;
      }
      assert Tags(images[j..]) == [tag.value] + rest && ([tag.value] + rest)[1..] == rest;
      if version != "" && version != tag.value {
        return Failure;
      }
      version := tag.value;
    }
    return Success(version);
  }

  /** The version of the running operator, from the images of the listed Deployments. */
  method OperatorVersion(listed: Result<seq<seq<string>>>) returns (r: Result<string>)
    ensures listed.Failure? ==> r.Failure?
    ensures listed.Success? ==>
      r == if Agreed("", AllTags(listed.value)) == Success("") then Failure else Agreed("", AllTags(listed.value))
  {
    if listed.Failure? {
      return Failure;
    }
    var deployments := listed.value;
    var version := "";
    for i := 0 to |deployments|
      invariant Agreed("", AllTags(deployments)) == Agreed(version, AllTags(deployments[i..]))
    {
      assert deployments[i..][1..] == deployments[i + 1..];
      AgreedConcat(version, Tags(deployments[i]), AllTags(deployments[i + 1..]));
      var agreed := AgreeOnImages(version, deployments[i]);
      if agreed.Failure? {
        return Failure;
      }
      version := agreed.value;
    }
    if version == "" {
      return Failure;
    }
    return Success(version);
  }

  /** Images tagged with a bare "v" give blank tags, which only count after the first real one. */
  function SkipBlanks(tags: seq<string>): seq<string> {
    if tags != [] && tags[0] == "" then SkipBlanks(tags[1..]) else tags
  }

  lemma {:induction false} AgreedFromVersion(version: string, tags: seq<string>, v: string)
    requires version != "" && v != ""
    ensures Agreed(version, tags) == Success(v) <==> version == v && forall t :: t in tags ==> t == v
  {
    if tags == [] {
      assert Agreed(version, tags) == Success(version);
    } else {
      assert forall t :: t in tags <==> t == tags[0] || t in tags[1..];
      if tags[0] == version {
        AgreedFromVersion(version, tags[1..], v);
        assert Agreed(version, tags) == Agreed(version, tags[1..]);
      } else {
        assert tags[0] in tags;
      }
    }
  }

  /** A version is found exactly when all operator images carry it: no coin flip between conflicting ones. */
  lemma {:induction false} AgreedMeansUnanimous(tags: seq<string>, v: string)
    requires v != ""
    ensures Agreed("", tags) == Success(v) <==>
      SkipBlanks(tags) != [] && forall t :: t in SkipBlanks(tags) ==> t == v
  {
    if tags != [] {
      if tags[0] == "" {
        AgreedMeansUnanimous(tags[1..], v);
      } else {
        AgreedFromVersion(tags[0], tags[1..], v);
        assert Agreed("", tags) == Agreed(tags[0], tags[1..]) && SkipBlanks(tags) == tags && tags[0] in tags;
        assert forall t :: t in tags <==> t == tags[0] || t in tags[1..];
      }
    }
  }

  lemma {:induction false} NothingToSkip(tags: seq<string>)
    requires "" !in tags
    ensures SkipBlanks(tags) == tags
  {
  }

  /** A version is found exactly when some container runs it and no container runs another. */
  lemma VersionFoundIff(deployments: seq<seq<string>>, v: string)
    requires v != "" && !Runs(deployments, "")
    ensures Agreed("", AllTags(deployments)) == Success(v) <==>
      Runs(deployments, v) && forall t :: Runs(deployments, t) ==> t == v
  {
    var tags := AllTags(deployments);
    AllTagsExact(deployments, "");
    NothingToSkip(tags);
    AgreedMeansUnanimous(tags, v);
    forall t ensures t in tags <==> Runs(deployments, t) {
      AllTagsExact(deployments, t);
    }
    if tags != [] {
      assert tags[0] in tags;
    }
  }

  // ------------------------------------------------------------------
  // Convergence
  // ------------------------------------------------------------------

  /** The engine resource's version as a reader finds it. */
  type EngineRead = Reading<string>

  function ConvergedCRVersion(parse: Parser, current: EngineRead, discovery: Result<string>,
                              providerSpecRead: bool, approved: bool): Result<string>
  {
    match current
    case NotFound => Success("")
    case Unreadable => Failure
    case Found(crVersion) =>
      if crVersion == "" then Success("")
      else if discovery.Failure? then Success(crVersion)
      else if !VersionLessThan(parse, crVersion, discovery.value) then Success(crVersion)
      else if !providerSpecRead then Failure
      else Success(if approved then discovery.value else crVersion)
  }

  /** b is a later version than a, component by component. */
  predicate Later(a: Version, b: Version) {
    || b.major > a.major
    || (b.major == a.major && b.minor > a.minor)
    || (b.major == a.major && b.minor == a.minor && b.patch > a.patch)
    || (b.major == a.major && b.minor == a.minor && b.patch == a.patch && b.pre > a.pre)
  }

  /**
   A new cluster is left unset, and so is one not pinned yet; a pinned version
   moves exactly to the operator's, if that is later and the move approved; and
   the pass fails exactly if the resource, or the release such a move is named
   after, cannot be read.
   */
  lemma ConvergesUpwards(parse: Parser, current: EngineRead, discovery: Result<string>,
                         providerSpecRead: bool, approved: bool)
    ensures var r := ConvergedCRVersion(parse, current, discovery, providerSpecRead, approved);
            var upgrade := current.Found? && current.value != "" && discovery.Success?
                           && parse(current.value).Some? && parse(discovery.value).Some?
                           && Later(parse(current.value).value, parse(discovery.value).value);
            && (r.Failure? <==> current.Unreadable? || (upgrade && !providerSpecRead))
            && (current.NotFound? ==> r == Success(""))
            && (r.Success? && current.Found? ==>
                  r.value == if upgrade && approved then discovery.value else current.value)
  {
  }

  // ------------------------------------------------------------------
  // Preflight
  // ------------------------------------------------------------------

  datatype Severity = Blocks | Warns

  datatype Reason = SkewWindowExceeded | SkewUnverified

  datatype Issue = Issue(severity: Severity, reason: Reason, instance: string)

  datatype Instance = Instance(name: string, deleting: bool, engine: EngineRead)

  predicate OutsideSkewWindow(target: Version, cr: Version) {
    target.major != cr.major || target.minor - cr.minor >= SKEW_WINDOW_MINORS
  }

  /** The operator at target can manage an engine resource at cr. */
  predicate Manageable(target: Version, cr: Version) {
    !Less(target, cr) && !OutsideSkewWindow(target, cr)
  }

  function InstanceIssue(parse: Parser, target: Version, instance: Instance): Option<Issue> {
    match instance.engine
    case NotFound => None
    case Unreadable => Some(Issue(Warns, SkewUnverified, instance.name))
    case Found(crVersion) =>
      if crVersion == "" then None
      else if parse(crVersion).None? then Some(Issue(Warns, SkewUnverified, instance.name))
      else if !Manageable(target, parse(crVersion).value) then Some(Issue(Blocks, SkewWindowExceeded, instance.name))
      else None
  }

  /**
   Preflight blocks exactly a later version than the target, another major, and a
   lag of three minors or more; it warns exactly where it cannot tell; and an
   Instance without an engine resource, or with one not pinned yet, is no issue.
   */
  lemma BlockedIff(parse: Parser, target: Version, instance: Instance)
    ensures var issue := InstanceIssue(parse, target, instance);
            var pinned := instance.engine.Found? && instance.engine.value != "";
            var cr := if pinned then parse(instance.engine.value) else None;
            && (issue == Some(Issue(Blocks, SkewWindowExceeded, instance.name)) <==>
                  cr.Some? && (Later(target, cr.value) || target.major != cr.value.major
                               || target.minor - cr.value.minor >= 3))
            && (issue == Some(Issue(Warns, SkewUnverified, instance.name)) <==>
                  instance.engine.Unreadable? || (pinned && parse(instance.engine.value).None?))
            && (issue.Some? ==> issue.value in {Issue(Blocks, SkewWindowExceeded, instance.name),
                                                Issue(Warns, SkewUnverified, instance.name)})
  {
  }

  predicate Clear(parse: Parser, target: Version, instance: Instance) {
    instance.deleting || InstanceIssue(parse, target, instance).None?
  }

  /** An unset target, or one that does not parse, is a warning only. */
  method CheckUpgrade(parse: Parser, targetText: string, instances: seq<Instance>) returns (issues: seq<Issue>)
    ensures targetText == "" || parse(targetText).None? ==> issues == [Issue(Warns, SkewUnverified, "")]
    ensures targetText != "" && parse(targetText).Some? ==>
      var target := parse(targetText).value;
      && (issues == [] <==> forall k :: 0 <= k < |instances| ==> Clear(parse, target, instances[k]))
      && (forall issue :: issue in issues <==>
            exists k :: 0 <= k < |instances| && !instances[k].deleting
                        && InstanceIssue(parse, target, instances[k]) == Some(issue))
  {
    if targetText == "" || parse(targetText).None? {
      return [Issue(Warns, SkewUnverified, "")];
    }
    var target := parse(targetText).value;
    issues := [];
    for i := 0 to |instances|
      invariant issues == [] <==> forall k :: 0 <= k < i ==> Clear(parse, target, instances[k])
      invariant forall issue :: issue in issues <==>
        exists k :: 0 <= k < i && !instances[k].deleting && InstanceIssue(parse, target, instances[k]) == Some(issue)
    {
      if instances[i].deleting {
        continue;
      }
      var issue := InstanceIssue(parse, target, instances[i]);
      if issue.Some? {
        issues := issues + [issue.value];
      }
    }
  }
}
