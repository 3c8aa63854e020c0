/** The build specification read from `build.yml` (src/objects.rs).  The YAML
    document itself is not modelled: a parsed document is a `Raw...` value whose
    optional fields are the keys that may be left out, and the `...WithDefaults`
    functions fill them in the way serde's `#[serde(default = ...)]` does. */
module Objects {
  import opened Wrappers

  /** The value an absent `epoch` key takes. */
  function DefaultEpoch(): string { "1" }

  /** The value an absent dependency list takes. */
  function EmptyVec<T>(): seq<T> { [] }

  datatype Dependencies = Dependencies(all: seq<string>, build: seq<string>, run: seq<string>)

  /** `{ sum: ... }`: the declared digest, as written in the document. */
  datatype Sum = Sum(sum: string)

  /** Internally tagged by the key `type`; today the one variant is `sha256`. */
  datatype SourceVerification = Sha256(s: Sum)

  datatype Source = Source(href: string, verification: SourceVerification)

  /** The install script: shell statements, in order. */
  datatype Scripts = Scripts(install: seq<string>)

  datatype BuildSpec = BuildSpec(
    name: string,
    version: string,
    epoch: string,
    depends: Dependencies,
    sources: seq<Source>,
    scripts: Scripts)

  /** A `depends` mapping as parsed: each list may be absent. */
  datatype RawDependencies = RawDependencies(
    all: Option<seq<string>>, build: Option<seq<string>>, run: Option<seq<string>>)

  /** A whole document as parsed: only `epoch` may be absent at this level. */
  datatype RawBuildSpec = RawBuildSpec(
    name: string,
    version: string,
    epoch: Option<string>,
    depends: RawDependencies,
    sources: seq<Source>,
    scripts: Scripts)

  /** An absent list becomes empty; a present one is kept as written. */
  function DependenciesWithDefaults(raw: RawDependencies): (d: Dependencies)
    ensures raw.all.None? ==> d.all == []
    ensures raw.build.None? ==> d.build == []
    ensures raw.run.None? ==> d.run == []
    ensures raw.all.Some? ==> d.all == raw.all.value
    ensures raw.build.Some? ==> d.build == raw.build.value
    ensures raw.run.Some? ==> d.run == raw.run.value
  {
    Dependencies(raw.all.GetOr(EmptyVec()), raw.build.GetOr(EmptyVec()), raw.run.GetOr(EmptyVec()))
  }

  /** An absent epoch becomes `"1"`; everything else is kept as written. */
  function BuildSpecWithDefaults(raw: RawBuildSpec): (spec: BuildSpec)
    ensures raw.epoch.None? ==> spec.epoch == "1"
    ensures raw.epoch.Some? ==> spec.epoch == raw.epoch.value
    ensures spec.name == raw.name && spec.version == raw.version
    ensures spec.depends == DependenciesWithDefaults(raw.depends)
    ensures spec.sources == raw.sources && spec.scripts == raw.scripts
  {
    BuildSpec(raw.name, raw.version, raw.epoch.GetOr(DefaultEpoch()),
              DependenciesWithDefaults(raw.depends), raw.sources, raw.scripts)
  }

  /** The document that writes every key out explicitly. */
  function Explicit(spec: BuildSpec): RawBuildSpec {
    RawBuildSpec(spec.name, spec.version, Some(spec.epoch),
                 RawDependencies(Some(spec.depends.all), Some(spec.depends.build), Some(spec.depends.run)),
                 spec.sources, spec.scripts)
  }

  /** Writing every field out and reading it back loses nothing, and leaving a
      key out is the same as writing its default. */
  lemma DefaultsAreTransparent(spec: BuildSpec, raw: RawBuildSpec)
    ensures BuildSpecWithDefaults(Explicit(spec)) == spec
    ensures BuildSpecWithDefaults(raw.(epoch := None)) == BuildSpecWithDefaults(raw.(epoch := Some("1")))
    ensures DependenciesWithDefaults(raw.depends.(run := None))
         == DependenciesWithDefaults(raw.depends.(run := Some([])))
  {
  }

  /** The value of the `type` tag for a verification. */
  function VerificationTag(v: SourceVerification): (tag: string)
    ensures tag == "sha256"
  {
    match v
    case Sha256(_) => "sha256"
  }

  /** Reading a tagged verification back: only the tag `sha256` is accepted. */
  function ParseVerification(tag: string, sum: string): (v: Option<SourceVerification>)
    ensures v.Some? <==> tag == "sha256"
    ensures v.Some? ==> v.value.s.sum == sum
  {
    if tag == "sha256" then Some(Sha256(Sum(sum))) else None
  }

  /** Tagging a verification and reading it back gives it back: the sum type
      has exactly the one variant the tag names. */
  lemma VerificationRoundTrip(v: SourceVerification)
    ensures ParseVerification(VerificationTag(v), v.s.sum) == Some(v)
  {
  }
}
