/**
 TLS parameters, their rendering, and the two guards that keep the TLS switch
 and the certificate source of a running cluster fixed (internal/provider/tls.go):
 admission compares two Instances, reconcile compares against the live resource.
 */
module Tls {
  import opened Text

  const PREFER := "preferTLS"
  const REQUIRE := "requireTLS"
  const DISABLED := "disabled"
  const ISSUER := "Issuer"
  const CLUSTER_ISSUER := "ClusterIssuer"

  datatype Issuer = Issuer(kind: string, name: string)

  datatype Parameters = Parameters(mode: string, issuer: Option<Issuer>, certificate: string, internal: string)

  /** An Instance's TLS parameters as decoded: absent, given, or not decodable. */
  type Decoded = Result<Option<Parameters>>

  // ------------------------------------------------------------------
  // Parameters
  // ------------------------------------------------------------------

  /** What the defaults guarantee. */
  predicate WellFormed(tls: Parameters) {
    tls.mode != "" && (tls.issuer.Some? ==> tls.issuer.value.name != "" && tls.issuer.value.kind != "")
  }

  predicate Enabled(mode: string) {
    mode != DISABLED
  }

  function WithDefaults(raw: Parameters): (tls: Parameters)
    ensures WellFormed(tls)
    ensures WellFormed(raw) ==> tls == raw
    ensures raw.mode == "" ==> Enabled(tls.mode)
    ensures tls.issuer.Some? ==> raw.issuer.Some? && tls.issuer.value.name == raw.issuer.value.name
    ensures tls.issuer.Some? && tls.issuer != raw.issuer ==>
      raw.issuer.value.kind == "" && tls.issuer.value.kind == ISSUER
  {
    var mode := if raw.mode == "" then PREFER else raw.mode;
    var issuer :=
      if raw.issuer.None? || raw.issuer.value.name == "" then None
      else if raw.issuer.value.kind == "" then Some(Issuer(ISSUER, raw.issuer.value.name))
      else raw.issuer;
    raw.(mode := mode, issuer := issuer)
  }

  function InstanceParameters(decoded: Decoded): (r: Result<Parameters>)
    ensures r.Failure? <==> decoded.Failure?
    ensures r.Success? ==> WellFormed(r.value)
    ensures decoded == Success(None) ==> r == Success(Parameters("preferTLS", None, "", ""))
    ensures decoded.Success? && decoded.value.Some? ==>
      var raw := decoded.value.value;
      && r.value.mode == (if raw.mode == "" then "preferTLS" else raw.mode)
      && r.value.certificate == raw.certificate && r.value.internal == raw.internal
      && (r.value.issuer.Some? <==> raw.issuer.Some? && raw.issuer.value.name != "")
      && (r.value.issuer.Some? ==>
            && r.value.issuer.value.name == raw.issuer.value.name
            && r.value.issuer.value.kind == if raw.issuer.value.kind == "" then "Issuer" else raw.issuer.value.kind)
  {
    match decoded
    case Failure => Failure
    case Success(None) => Success(WithDefaults(Parameters("", None, "", "")))
    case Success(Some(raw)) => Success(WithDefaults(raw))
  }

  function InternalName(cluster: string, tls: Parameters): string {
    if tls.internal != "" then tls.internal else cluster + "-ssl-internal"
  }

  function IssuerText(issuer: Option<Issuer>): string {
    if issuer.Some? then issuer.value.kind + "/" + issuer.value.name else "/"
  }

  function CertificateSource(tls: Parameters): string {
    IssuerText(tls.issuer) + " " + tls.certificate + " " + tls.internal
  }

  // ------------------------------------------------------------------
  // Rendering
  // ------------------------------------------------------------------

  datatype TlsSpec = TlsSpec(mode: string, issuerKind: string, issuerName: string, userProvidedOnly: bool)

  datatype Secrets = Secrets(ssl: string, sslInternal: string)

  /** The part of the engine resource that TLS touches. */
  datatype Resource = Resource(tls: Option<TlsSpec>, secrets: Option<Secrets>)

  /** keep is what keepCertificates answers on this pass. */
  function Rendered(cluster: string, tls: Parameters, keep: bool): Resource {
    var kind, name := if tls.issuer.Some? then tls.issuer.value.kind else "",
                      if tls.issuer.Some? then tls.issuer.value.name else "";
    Resource(Some(TlsSpec(tls.mode, kind, name, tls.certificate != "" || keep)),
             Some(Secrets(tls.certificate, InternalName(cluster, tls))))
  }

  /** The engine resource under construction. */
  class Draft {
    var tls: Option<TlsSpec>
    var secrets: Option<Secrets>
    var unsafeTls: bool

    /** configureTLS, then the secrets Sync sets with the others. */
    method ConfigureTLS(cluster: string, parameters: Parameters, keep: bool)
      modifies this
      ensures Resource(tls, secrets) == Rendered(cluster, parameters, keep)
      ensures tls.Some? && tls.value.mode == parameters.mode
      ensures tls.value.userProvidedOnly <==> parameters.certificate != "" || keep
      ensures tls.value.issuerName == (if parameters.issuer.Some? then parameters.issuer.value.name else "")
      ensures tls.value.issuerKind == (if parameters.issuer.Some? then parameters.issuer.value.kind else "")
      ensures secrets.Some? && secrets.value.ssl == parameters.certificate
      ensures secrets.value.sslInternal ==
        if parameters.internal != "" then parameters.internal else cluster + "-ssl-internal"
      ensures unsafeTls <==> parameters.mode == "disabled"
    {
      var spec := TlsSpec(parameters.mode, "", "", false);
      if parameters.issuer.Some? {
        spec := spec.(issuerKind := parameters.issuer.value.kind, issuerName := parameters.issuer.value.name);
      }
      if parameters.certificate != "" || keep {
        spec := spec.(userProvidedOnly := true);
      }
      tls := Some(spec);
      unsafeTls := !Enabled(parameters.mode);
      secrets := Some(Secrets(parameters.certificate, InternalName(cluster, parameters)));
    }
  }

  // ------------------------------------------------------------------
  // Validation
  // ------------------------------------------------------------------

  datatype Problem =
    | Undecodable
    | ModeUnsupported
    | KindUnsupported
    | OnlyWithTls
    | CertificateRequired
    | SecretsOrIssuer
    | SwitchForbidden
    | SourceForbidden

  /** Parameters the provider accepts on their own. */
  predicate Acceptable(tls: Parameters) {
    && tls.mode in {PREFER, REQUIRE, DISABLED}
    && (tls.issuer.Some? ==> tls.issuer.value.kind in {ISSUER, CLUSTER_ISSUER})
    && (!Enabled(tls.mode) ==> tls.certificate == "" && tls.internal == "" && tls.issuer.None?)
    && (tls.internal != "" ==> tls.certificate != "")
    && !(tls.certificate != "" && tls.issuer.Some?)
  }

  method ValidateTLS(decoded: Decoded) returns (errs: seq<Problem>)
    ensures errs == [] <==>
      InstanceParameters(decoded).Success? && Acceptable(InstanceParameters(decoded).value)
    ensures Undecodable in errs <==> decoded.Failure?
    ensures InstanceParameters(decoded).Success? ==>
      var tls := InstanceParameters(decoded).value;
      && (ModeUnsupported in errs <==> tls.mode !in {"preferTLS", "requireTLS", "disabled"})
      && (KindUnsupported in errs <==> tls.issuer.Some? && tls.issuer.value.kind !in {"Issuer", "ClusterIssuer"})
      && (OnlyWithTls in errs <==>
            tls.mode == "disabled" && (tls.certificate != "" || tls.internal != "" || tls.issuer.Some?))
      && (CertificateRequired in errs <==> tls.mode != "disabled" && tls.internal != "" && tls.certificate == "")
      && (SecretsOrIssuer in errs <==> tls.mode != "disabled" && tls.certificate != "" && tls.issuer.Some?)
  {
    var parsed := InstanceParameters(decoded);
    if parsed.Failure? {
      return [Undecodable];
    }
    var tls := parsed.value;
    errs := [];
    if tls.mode !in {PREFER, REQUIRE, DISABLED} {
      errs := errs + [ModeUnsupported];
    }
    if tls.issuer.Some? && tls.issuer.value.kind !in {ISSUER, CLUSTER_ISSUER} {
      errs := errs + [KindUnsupported];
    }
    var custom := tls.certificate != "" || tls.internal != "";
    if !Enabled(tls.mode) && (custom || tls.issuer.Some?) {
      errs := errs + [OnlyWithTls];
    } else if tls.internal != "" && tls.certificate == "" {
      errs := errs + [CertificateRequired];
    } else if tls.certificate != "" && tls.issuer.Some? {
      errs := errs + [SecretsOrIssuer];
    }
  }

  /** The Instance before an update, and whether the provider had not created anything for it yet. */
  datatype Previous = NoPrevious | Previous(pending: bool, decoded: Decoded)

  /** Admission on the parameters alone. */
  predicate Admits(before: Parameters, after: Parameters) {
    Enabled(before.mode) == Enabled(after.mode) && CertificateSource(before) == CertificateSource(after)
  }

  method ValidateTLSTransition(decoded: Decoded, previous: Previous) returns (errs: seq<Problem>)
    ensures previous.NoPrevious? || previous.pending || previous.decoded.Failure? || decoded.Failure? ==> errs == []
    ensures previous.Previous? && !previous.pending && previous.decoded.Success? && decoded.Success? ==>
      var before, after := InstanceParameters(previous.decoded).value, InstanceParameters(decoded).value;
      && (errs == [] <==> Admits(before, after))
      && (SwitchForbidden in errs <==> (before.mode == "disabled") != (after.mode == "disabled"))
      && (SourceForbidden in errs <==> CertificateSource(before) != CertificateSource(after))
  {
    errs := [];
    if previous.NoPrevious? || previous.pending {
      return;
    }
    var before, after := InstanceParameters(previous.decoded), InstanceParameters(decoded);
    if before.Failure? || after.Failure? {
      return;
    }
    if Enabled(before.value.mode) != Enabled(after.value.mode) {
      errs := errs + [SwitchForbidden];
    }
    if CertificateSource(before.value) != CertificateSource(after.value) {
      errs := errs + [SourceForbidden];
    }
  }

  /** The live engine resource as reconcile reads it. */
  type LiveRead = Reading<Resource>

  function CurrentMode(r: Resource): string {
    if r.tls.Some? && r.tls.value.mode != "" then r.tls.value.mode else PREFER
  }

  function CurrentIssuer(r: Resource): string {
    if r.tls.Some? then r.tls.value.issuerKind + "/" + r.tls.value.issuerName else "/"
  }

  function CurrentSecret(r: Resource): string {
    if r.secrets.Some? && r.tls.Some? && r.tls.value.userProvidedOnly then r.secrets.value.ssl else ""
  }

  function CurrentInternal(r: Resource): string {
    if r.secrets.Some? then r.secrets.value.sslInternal else ""
  }

  /** The resource was created from the same issuer and secrets. */
  predicate SameSource(cluster: string, r: Resource, tls: Parameters) {
    && CurrentIssuer(r) == IssuerText(tls.issuer)
    && CurrentSecret(r) == tls.certificate
    && (CurrentInternal(r) != "" ==> CurrentInternal(r) == InternalName(cluster, tls))
  }

  /** Reconcile against an existing resource. */
  predicate Reconciles(cluster: string, r: Resource, tls: Parameters) {
    Enabled(CurrentMode(r)) == Enabled(tls.mode) && SameSource(cluster, r, tls)
  }

  method ValidateTLSChange(cluster: string, live: LiveRead, tls: Parameters) returns (r: Result<seq<Problem>>)
    ensures r.Failure? <==> live.Unreadable?
    ensures r.Success? ==> (r.value == [] <==> live.NotFound? || Reconciles(cluster, live.value, tls))
    ensures r.Success? && live.Found? ==>
      && (SwitchForbidden in r.value <==>
            (live.value.tls.Some? && live.value.tls.value.mode == "disabled") != (tls.mode == "disabled"))
      && (SourceForbidden in r.value <==> !SameSource(cluster, live.value, tls))
  {
    if live.Unreadable? {
      return Failure;
    }
    if live.NotFound? {
      return Success([]);
    }
    var current := live.value;
    var errs := [];
    var currentMode := PREFER;
    if current.tls.Some? && current.tls.value.mode != "" {
      currentMode := current.tls.value.mode;
    }
    if (currentMode != DISABLED) != Enabled(tls.mode) {
      errs := errs + [SwitchForbidden];
    }
    var currentIssuer, currentSecret, currentInternal := "/", "", "";
    if current.tls.Some? {
      currentIssuer := current.tls.value.issuerKind + "/" + current.tls.value.issuerName;
    }
    if current.secrets.Some? {
      currentInternal := current.secrets.value.sslInternal;
      if current.tls.Some? && current.tls.value.userProvidedOnly {
        currentSecret := current.secrets.value.ssl;
      }
    }
    if currentIssuer != IssuerText(tls.issuer) || currentSecret != tls.certificate
       || (currentInternal != "" && currentInternal != InternalName(cluster, tls)) {
      errs := errs + [SourceForbidden];
    }
    return Success(errs);
  }

  // ------------------------------------------------------------------
  // Text encodings
  // ------------------------------------------------------------------

  predicate SpaceFree(tls: Parameters) {
    && ' ' !in tls.certificate && ' ' !in tls.internal
    && (tls.issuer.Some? ==> ' ' !in tls.issuer.value.kind && ' ' !in tls.issuer.value.name)
  }

  predicate PlainKind(issuer: Option<Issuer>) {
    issuer.Some? ==> '/' !in issuer.value.kind && issuer.value.kind != ""
  }

  lemma IssuerTextInjective(a: Option<Issuer>, b: Option<Issuer>)
    requires PlainKind(a) && PlainKind(b)
    ensures IssuerText(a) == IssuerText(b) <==> a == b
  {
    if IssuerText(a) == IssuerText(b) {
      var (ka, na) := if a.Some? then (a.value.kind, a.value.name) else ("", "");
      var (kb, nb) := if b.Some? then (b.value.kind, b.value.name) else ("", "");
      assert IssuerText(a) == ka + ['/'] + na && IssuerText(b) == kb + ['/'] + nb;
      FirstPart(ka, kb, na, nb, '/');
    }
  }

  /** What reconcile compares, field by field: an absent section counts as unset. */
  lemma SameSourceIff(cluster: string, r: Resource, tls: Parameters)
    requires PlainKind(tls.issuer) && (r.tls.Some? ==> '/' !in r.tls.value.issuerKind)
    ensures SameSource(cluster, r, tls) <==>
      && (if r.tls.Some? then r.tls.value.issuerKind else "")
         == (if tls.issuer.Some? then tls.issuer.value.kind else "")
      && (if r.tls.Some? then r.tls.value.issuerName else "")
         == (if tls.issuer.Some? then tls.issuer.value.name else "")
      && (if r.secrets.Some? && r.tls.Some? && r.tls.value.userProvidedOnly then r.secrets.value.ssl else "")
         == tls.certificate
      && (r.secrets.Some? && r.secrets.value.sslInternal != "" ==>
            r.secrets.value.sslInternal == if tls.internal != "" then tls.internal else cluster + "-ssl-internal")
  {
    var (kr, nr) := if r.tls.Some? then (r.tls.value.issuerKind, r.tls.value.issuerName) else ("", "");
    var (kp, np) := if tls.issuer.Some? then (tls.issuer.value.kind, tls.issuer.value.name) else ("", "");
    assert CurrentIssuer(r) == kr + ['/'] + nr && IssuerText(tls.issuer) == kp + ['/'] + np;
    if CurrentIssuer(r) == IssuerText(tls.issuer) {
      FirstPart(kr, kp, nr, np, '/');
    }
  }

  /** For space-free names the source text separates issuer, certificate and internal secret. */
  lemma SourceSeparates(a: Parameters, b: Parameters)
    requires SpaceFree(a) && SpaceFree(b)
    ensures CertificateSource(a) == CertificateSource(b) <==>
      IssuerText(a.issuer) == IssuerText(b.issuer) && a.certificate == b.certificate && a.internal == b.internal
  {
    if CertificateSource(a) == CertificateSource(b) {
      var ia, ib := IssuerText(a.issuer), IssuerText(b.issuer);
      assert CertificateSource(a) == ia + [' '] + (a.certificate + [' '] + a.internal);
      assert CertificateSource(b) == ib + [' '] + (b.certificate + [' '] + b.internal);
      FirstPart(ia, ib, a.certificate + [' '] + a.internal, b.certificate + [' '] + b.internal, ' ');
      FirstPart(a.certificate, b.certificate, a.internal, b.internal, ' ');
    }
  }

  /** certificateSource is injective on space-free names with slash-free kinds. */
  lemma CertificateSourceInjective(a: Parameters, b: Parameters)
    requires SpaceFree(a) && SpaceFree(b) && PlainKind(a.issuer) && PlainKind(b.issuer)
    ensures CertificateSource(a) == CertificateSource(b) <==>
      a.issuer == b.issuer && a.certificate == b.certificate && a.internal == b.internal
  {
    SourceSeparates(a, b);
    IssuerTextInjective(a.issuer, b.issuer);
  }

  // ------------------------------------------------------------------
  // The two guards agree
  // ------------------------------------------------------------------

  /** The rendered resource shows reconcile exactly the parameters it came from. */
  lemma RenderedShows(cluster: string, a: Parameters, keep: bool)
    requires a.mode != ""
    ensures var r := Rendered(cluster, a, keep);
            && CurrentMode(r) == a.mode && CurrentIssuer(r) == IssuerText(a.issuer)
            && CurrentSecret(r) == a.certificate && CurrentInternal(r) == InternalName(cluster, a) != ""
  {
  }

  /** One of the two spells out the name the provider generates, the other leaves it unset. */
  predicate DefaultSpelledOut(cluster: string, a: Parameters, b: Parameters) {
    {a.internal, b.internal} == {"", cluster + "-ssl-internal"}
  }

  /**
   Against the resource rendered from the old parameters, whatever
   keepCertificates answered, reconcile accepts every edit admission accepts,
   and accepts no more, except for an internal secret spelled as the default.
   */
  lemma GuardsAgree(cluster: string, before: Parameters, after: Parameters, keep: bool)
    requires WellFormed(before) && SpaceFree(before) && SpaceFree(after)
    ensures Admits(before, after) ==> Reconciles(cluster, Rendered(cluster, before, keep), after)
    ensures Reconciles(cluster, Rendered(cluster, before, keep), after) ==>
      (Admits(before, after) <==> !DefaultSpelledOut(cluster, before, after))
  {
    RenderedShows(cluster, before, keep);
    SourceSeparates(before, after);
    assert cluster + "-ssl-internal" != "";
    if before.internal != after.internal && InternalName(cluster, before) == InternalName(cluster, after) {
      assert DefaultSpelledOut(cluster, before, after);
    }
  }

  /** The exception is real: valid parameters that reconcile accepts and admission rejects. */
  lemma SpellingOutTheDefaultIsAChangeAtAdmission(cluster: string, keep: bool)
    requires ' ' !in cluster
    ensures var before := Parameters(PREFER, None, "mine", "");
            var after := before.(internal := cluster + "-ssl-internal");
            && Acceptable(before) && Acceptable(after)
            && Reconciles(cluster, Rendered(cluster, before, keep), after)
            && !Admits(before, after)
  {
    var before := Parameters(PREFER, None, "mine", "");
    var after := before.(internal := cluster + "-ssl-internal");
    assert ' ' !in "mine" && ' ' !in "-ssl-internal";
    assert |after.internal| > 0;
    GuardsAgree(cluster, before, after, keep);
  }

  // ------------------------------------------------------------------
  // Immutability over runs
  // ------------------------------------------------------------------

  /** What must never change on a running cluster. */
  datatype Identity = Identity(on: bool, issuerKind: string, issuerName: string, ssl: string, sslInternal: string)

  function IdentityOf(r: Resource): Identity
    requires r.tls.Some? && r.secrets.Some?
  {
    Identity(Enabled(r.tls.value.mode), r.tls.value.issuerKind, r.tls.value.issuerName,
             r.secrets.value.ssl, r.secrets.value.sslInternal)
  }

  /** The Instance may be edited at will, past admission too; the live resource is written by Sync alone. */
  datatype State = State(instance: Decoded, live: Option<Resource>)

  datatype Step = Edit(instance: Decoded) | Sync(keep: bool)

  /** Sync runs only once the reconcile-time checks pass. */
  predicate Allowed(cluster: string, s: State, step: Step) {
    match step
    case Edit(_) => true
    case Sync(_) =>
      var parsed := InstanceParameters(s.instance);
      && parsed.Success? && Acceptable(parsed.value)
      && (s.live.Some? ==> Reconciles(cluster, s.live.value, parsed.value))
  }

  function After(cluster: string, s: State, step: Step): State
    requires Allowed(cluster, s, step)
  {
    match step
    case Edit(instance) => s.(instance := instance)
    case Sync(keep) => s.(live := Some(Rendered(cluster, InstanceParameters(s.instance).value, keep)))
  }

  ghost predicate Run(cluster: string, states: seq<State>, steps: seq<Step>) {
    && |states| == |steps| + 1
    && states[0].live.None?
    && forall k :: 0 <= k < |steps| ==>
         Allowed(cluster, states[k], steps[k]) && states[k + 1] == After(cluster, states[k], steps[k])
  }

  /** What Sync applies is what the Instance asks for by then; the mode may change between the two that leave TLS on. */
  lemma SyncFollowsInstance(cluster: string, states: seq<State>, steps: seq<Step>, k: nat)
    requires Run(cluster, states, steps) && k < |steps| && steps[k].Sync?
    ensures var parsed, live := InstanceParameters(states[k].instance), states[k + 1].live;
            && parsed.Success? && live.Some? && live.value.tls.Some? && live.value.secrets.Some?
            && live.value.tls.value.mode == parsed.value.mode
            && (live.value.tls.value.userProvidedOnly <==> parsed.value.certificate != "" || steps[k].keep)
            && live.value.secrets.value.ssl == parsed.value.certificate
  {
  }

  ghost predicate FromAcceptable(cluster: string, r: Resource) {
    exists tls, keep :: Acceptable(tls) && WellFormed(tls) && r == Rendered(cluster, tls, keep)
  }

  lemma AcceptedKeepsIdentity(cluster: string, a: Parameters, keepA: bool, b: Parameters, keepB: bool)
    requires Acceptable(a) && Acceptable(b)
    requires Reconciles(cluster, Rendered(cluster, a, keepA), b)
    ensures IdentityOf(Rendered(cluster, b, keepB)) == IdentityOf(Rendered(cluster, a, keepA))
  {
    RenderedShows(cluster, a, keepA);
    assert '/' !in ISSUER && '/' !in CLUSTER_ISSUER;
    IssuerTextInjective(a.issuer, b.issuer);
  }

  lemma {:induction false} LiveFromAcceptable(cluster: string, states: seq<State>, steps: seq<Step>, k: nat)
    requires Run(cluster, states, steps) && k < |states| && states[k].live.Some?
    ensures FromAcceptable(cluster, states[k].live.value)
  {
    if steps[k - 1].Edit? {
      LiveFromAcceptable(cluster, states, steps, k - 1);
    } else {
      var tls := InstanceParameters(states[k - 1].instance).value;
      assert states[k].live.value == Rendered(cluster, tls, steps[k - 1].keep);
    }
  }

  /**
   Over every run the live resource keeps the TLS switch, issuer, certificate
   secret and internal secret it was created with.
   */
  lemma {:induction false} TlsIdentityNeverChanges(cluster: string, states: seq<State>, steps: seq<Step>,
                                                   i: nat, k: nat)
    requires Run(cluster, states, steps) && i <= k < |states| && states[i].live.Some?
    ensures states[k].live.Some?
    ensures FromAcceptable(cluster, states[i].live.value) && FromAcceptable(cluster, states[k].live.value)
    ensures IdentityOf(states[k].live.value) == IdentityOf(states[i].live.value)
  {
    LiveFromAcceptable(cluster, states, steps, i);
    if i < k {
      TlsIdentityNeverChanges(cluster, states, steps, i, k - 1);
      LiveFromAcceptable(cluster, states, steps, k);
      if steps[k - 1].Sync? {
        var a, keepA :| Acceptable(a) && WellFormed(a) && states[k - 1].live.value == Rendered(cluster, a, keepA);
        AcceptedKeepsIdentity(cluster, a, keepA, InstanceParameters(states[k - 1].instance).value, steps[k - 1].keep);
      }
    }
  }

  /** Some runs do change the mode: from TLS preferred to required. */
  lemma ModeMayChange(cluster: string, keep: bool) returns (states: seq<State>, steps: seq<Step>)
    ensures Run(cluster, states, steps) && |steps| == 4
    ensures states[2].live.Some? && states[2].live.value.tls.Some? && states[2].live.value.tls.value.mode == "preferTLS"
    ensures states[4].live.Some? && states[4].live.value.tls.Some?
    ensures states[4].live.value.tls.value.mode == "requireTLS"
  {
    var none: Decoded := Success(None);
    var required: Decoded := Success(Some(Parameters("requireTLS", None, "", "")));
    var s0 := State(none, None);
    var s1 := After(cluster, s0, Edit(none));
    var s2 := After(cluster, s1, Sync(keep));
    var s3 := After(cluster, s2, Edit(required));
    RenderedShows(cluster, Parameters("preferTLS", None, "", ""), keep);
    var s4 := After(cluster, s3, Sync(keep));
    states, steps := [s0, s1, s2, s3, s4], [Edit(none), Sync(keep), Edit(required), Sync(keep)];
  }
}
