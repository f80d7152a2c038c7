/** The admission rules on AuraInstanceSpec, and what they add up to over an instance's whole history of updates. */
module AuraAdmission {
  import opened Options

  datatype Tier = FreeDB | ProfessionalDB | BusinessCritical | EnterpriseDB | ProfessionalDS | EnterpriseDS

  datatype Analytics = Unavailable | Serverless | Plugin

  /** The fields the rules read. Immutable identifiers are kept as text. */
  datatype Spec = Spec(
    providerConfigRef: Option<string>,
    credentialsSecretRef: Option<string>,
    projectId: Option<string>,
    organizationId: Option<string>,
    cloudProvider: string,
    region: string,
    tier: Tier,
    version: string,
    memory: Option<string>,
    storage: Option<string>,
    vectorOptimized: Option<bool>,
    graphAnalytics: Option<Analytics>,
    graphAnalyticsPlugin: Option<bool>,
    secondariesCount: Option<int>,
    cdcEnrichmentMode: Option<string>,
    customerManagedKeyId: Option<string>,
    multiDatabase: Option<bool>,
    source: Option<string>,
    instanceId: Option<string>)
  {
    predicate MultiDatabase() {
      multiDatabase == Some(true)
    }

    /** Created through the v2beta1 API, which lacks four of the fields. */
    predicate CreatedThroughV2() {
      MultiDatabase() || graphAnalytics == Some(Serverless)
    }

    predicate HasV1OnlyField() {
      secondariesCount.Some? || cdcEnrichmentMode.Some? || customerManagedKeyId.Some? || source.Some?
    }
  }

  /** The rules on the object itself, checked at every create and update. */
  predicate Valid(self: Spec) {
    && (self.providerConfigRef.Some? != self.credentialsSecretRef.Some?)
    && (self.tier != FreeDB || self.storage.None?)
    && (self.tier == FreeDB || self.memory.Some?)
    && (self.secondariesCount.None? || self.tier == EnterpriseDB)
    && (self.cdcEnrichmentMode.None? || self.tier == EnterpriseDB || self.tier == BusinessCritical)
    && (self.customerManagedKeyId.None? || self.tier == EnterpriseDB || self.tier == EnterpriseDS)
    && (self.multiDatabase.None? || !self.multiDatabase.value || self.tier in {BusinessCritical, EnterpriseDB})
    && (((self.multiDatabase.None? || !self.multiDatabase.value)
         && (self.graphAnalytics.None? || self.graphAnalytics.value != Serverless))
        || (self.secondariesCount.None? && self.cdcEnrichmentMode.None? && self.customerManagedKeyId.None? && self.source.None?))
    && (self.graphAnalytics.None? || self.graphAnalyticsPlugin.None?)
    && (self.multiDatabase.None? || !self.multiDatabase.value || self.vectorOptimized.None? || !self.vectorOptimized.value)
  }

  predicate FixedOnceSet<T(==)>(old': Option<T>, self: Option<T>) {
    old'.None? || (self.Some? && self.value == old'.value)
  }

  predicate Fixed<T(==)>(old': Option<T>, self: Option<T>) {
    self.Some? == old'.Some? && (self.None? || self.value == old'.value)
  }

  function Equivalent(plugin: bool): Analytics {
    if plugin then Plugin else Unavailable
  }

  /** The transition rules, checked at every update. */
  predicate Transition(old': Spec, self: Spec) {
    && self.cloudProvider == old'.cloudProvider
    && self.region == old'.region
    && (self.tier == old'.tier || (old'.tier == ProfessionalDB && self.tier == BusinessCritical))
    && self.version == old'.version
    && FixedOnceSet(old'.projectId, self.projectId)
    && FixedOnceSet(old'.customerManagedKeyId, self.customerManagedKeyId)
    && FixedOnceSet(old'.instanceId, self.instanceId)
    && Fixed(old'.source, self.source)
    && Fixed(old'.multiDatabase, self.multiDatabase)
    && FixedOnceSet(old'.organizationId, self.organizationId)
    && (if old'.graphAnalytics.Some? then self.graphAnalytics == old'.graphAnalytics
        else self.graphAnalytics.None?
             || (old'.graphAnalyticsPlugin.Some? && self.graphAnalytics.value == Equivalent(old'.graphAnalyticsPlugin.value)))
  }

  predicate Accepted(old': Spec, self: Spec) {
    Valid(self) && Transition(old', self)
  }

  /** Every object of the history was accepted: the first as a create, the others as updates of their predecessors. */
  predicate History(h: seq<Spec>) {
    && h != [] && Valid(h[0])
    && forall i :: 0 < i < |h| ==> Accepted(h[i - 1], h[i])
  }

  lemma HistoryValid(h: seq<Spec>, i: nat)
    requires History(h) && i < |h|
    ensures Valid(h[i])
  {
    if i > 0 { assert Accepted(h[i - 1], h[i]); }
  }

  /** What one accepted update cannot change or undo, kept over any number of them. */
  predicate Later(a: Spec, b: Spec) {
    && b.cloudProvider == a.cloudProvider && b.region == a.region && b.version == a.version
    && (b.tier == a.tier || (a.tier == ProfessionalDB && b.tier == BusinessCritical))
    && b.multiDatabase == a.multiDatabase && b.source == a.source
    && FixedOnceSet(a.projectId, b.projectId) && FixedOnceSet(a.organizationId, b.organizationId)
    && FixedOnceSet(a.instanceId, b.instanceId) && FixedOnceSet(a.customerManagedKeyId, b.customerManagedKeyId)
    && (a.graphAnalytics.Some? ==> b.graphAnalytics == a.graphAnalytics)
    && (b.graphAnalytics == Some(Serverless) ==> a.graphAnalytics == Some(Serverless))
  }

  lemma {:induction false} LaterInHistory(h: seq<Spec>, i: nat, k: nat)
    requires History(h) && i <= k < |h|
    ensures Later(h[i], h[k])
    decreases k - i
  {
    if i < k {
      LaterInHistory(h, i, k - 1);
      assert Accepted(h[k - 1], h[k]);
    }
  }

  /** From `i` on, the tier is professional-db before `n` and business-critical from there to the end. */
  predicate UpgradedAt(h: seq<Spec>, i: nat, n: nat) {
    && (forall m :: i <= m < n && m < |h| ==> h[m].tier == ProfessionalDB)
    && (forall m :: n <= m < |h| ==> h[m].tier == BusinessCritical)
  }

  /** The tier changes at most once, and then from professional-db to business-critical. */
  lemma TierChangesOnce(h: seq<Spec>, i: nat, k: nat)
    requires History(h) && i <= k < |h|
    ensures h[i].tier != h[k].tier ==> h[i].tier == ProfessionalDB && h[k].tier == BusinessCritical
    ensures h[i].tier != h[k].tier ==> exists n :: i < n <= k && UpgradedAt(h, i, n)
  {
    LaterInHistory(h, i, k);
    if h[i].tier != h[k].tier {
      var n := FirstUpgraded(h, i, k);
      forall m | n <= m < |h| ensures h[m].tier == BusinessCritical {
        LaterInHistory(h, n, m);
      }
      assert UpgradedAt(h, i, n);
    }
  }

  lemma {:induction false} FirstUpgraded(h: seq<Spec>, i: nat, k: nat) returns (n: nat)
    requires History(h) && i <= k < |h| && h[i].tier == ProfessionalDB && h[k].tier == BusinessCritical
    ensures i < n <= k && h[n].tier == BusinessCritical && forall m :: i <= m < n ==> h[m].tier == ProfessionalDB
    decreases k - i
  {
    LaterInHistory(h, i, i + 1);
    if h[i + 1].tier == BusinessCritical {
      n := i + 1;
    } else {
      n := FirstUpgraded(h, i + 1, k);
    }
  }

  /** An instance that was professional-db at any time is never a multi-database instance, before or after. */
  lemma ProfessionalNeverMultiDatabase(h: seq<Spec>, i: nat, k: nat)
    requires History(h) && i < |h| && k < |h| && h[i].tier == ProfessionalDB
    ensures !h[k].MultiDatabase()
  {
    HistoryValid(h, i);
    LaterInHistory(h, if i <= k then i else k, if i <= k then k else i);
  }

  /** Serverless analytics at any time means serverless analytics at creation, and ever since. */
  lemma ServerlessFromCreation(h: seq<Spec>, i: nat, k: nat)
    requires History(h) && i < |h| && k < |h|
    ensures h[i].graphAnalytics == Some(Serverless) <==> h[k].graphAnalytics == Some(Serverless)
  {
    LaterInHistory(h, if i <= k then i else k, if i <= k then k else i);
  }

  /** An instance once created through the v2beta1 API never has a field that API lacks. */
  lemma V2NeverHasV1Fields(h: seq<Spec>, i: nat, k: nat)
    requires History(h) && i < |h| && k < |h| && h[i].CreatedThroughV2()
    ensures h[k].CreatedThroughV2() && !h[k].HasV1OnlyField()
  {
    LaterInHistory(h, if i <= k then i else k, if i <= k then k else i);
    HistoryValid(h, k);
  }

  /** A field reserved to some tiers, present at any time, limits the tier of the instance at every time. */
  lemma TierLimits(h: seq<Spec>, i: nat, k: nat)
    requires History(h) && i < |h| && k < |h|
    ensures h[i].secondariesCount.Some? ==> h[k].tier == EnterpriseDB
    ensures h[i].customerManagedKeyId.Some? ==> h[k].tier == h[i].tier && h[k].tier in {EnterpriseDB, EnterpriseDS}
    ensures h[i].cdcEnrichmentMode.Some? ==>
      h[k].tier in {EnterpriseDB, BusinessCritical} || (k < i && h[k].tier == ProfessionalDB)
    ensures h[i].tier == FreeDB ==> h[k].tier == FreeDB && h[k].storage.None?
    ensures h[i].tier != FreeDB ==> h[k].memory.Some?
  {
    LaterInHistory(h, if i <= k then i else k, if i <= k then k else i);
    HistoryValid(h, i);
    HistoryValid(h, k);
  }

  /** A multi-database instance is one at every time, on a tier that supports it, and never vector-optimized. */
  lemma MultiDatabaseForGood(h: seq<Spec>, i: nat, k: nat)
    requires History(h) && i < |h| && k < |h| && h[i].MultiDatabase()
    ensures h[k].MultiDatabase() && h[k].tier == h[i].tier && h[k].tier in {BusinessCritical, EnterpriseDB}
    ensures h[k].vectorOptimized != Some(true)
  {
    LaterInHistory(h, if i <= k then i else k, if i <= k then k else i);
    HistoryValid(h, i);
    HistoryValid(h, k);
  }

  /** Once graphAnalytics is set, it keeps its value and the deprecated field never comes back. */
  lemma PluginNeverReappears(h: seq<Spec>, i: nat, k: nat)
    requires History(h) && i <= k < |h| && h[i].graphAnalytics.Some?
    ensures h[k].graphAnalytics == h[i].graphAnalytics && h[k].graphAnalyticsPlugin.None?
  {
    LaterInHistory(h, i, k);
    HistoryValid(h, k);
  }

  /** At every time exactly one source of credentials is named. */
  lemma OneCredentialSource(h: seq<Spec>, i: nat)
    requires History(h) && i < |h|
    ensures h[i].providerConfigRef.Some? <==> h[i].credentialsSecretRef.None?
  {
    HistoryValid(h, i);
  }

  // ---- What the rules allow ----

  /** The fields tier by tier: what must be there and what must not. */
  predicate FitsTier(s: Spec) {
    match s.tier
    case FreeDB =>
      s.storage.None? && s.secondariesCount.None? && s.cdcEnrichmentMode.None? && s.customerManagedKeyId.None? && !s.MultiDatabase()
    case ProfessionalDB =>
      s.memory.Some? && s.secondariesCount.None? && s.cdcEnrichmentMode.None? && s.customerManagedKeyId.None? && !s.MultiDatabase()
    case BusinessCritical => s.memory.Some? && s.secondariesCount.None? && s.customerManagedKeyId.None?
    case EnterpriseDB => s.memory.Some?
    case ProfessionalDS =>
      s.memory.Some? && s.secondariesCount.None? && s.cdcEnrichmentMode.None? && s.customerManagedKeyId.None? && !s.MultiDatabase()
    case EnterpriseDS => s.memory.Some? && s.secondariesCount.None? && s.cdcEnrichmentMode.None? && !s.MultiDatabase()
  }

  /** What is accepted at creation. */
  lemma ValidIff(s: Spec)
    ensures Valid(s) <==>
      && FitsTier(s) && (s.providerConfigRef.Some? <==> s.credentialsSecretRef.None?)
      && (s.CreatedThroughV2() ==> !s.HasV1OnlyField())
      && !(s.graphAnalytics.Some? && s.graphAnalyticsPlugin.Some?)
      && !(s.MultiDatabase() && s.vectorOptimized == Some(true))
  {
  }

  /**
    What is accepted as an update: a valid object that keeps what Later says, and
    that sets graphAnalytics only in place of the equivalent graphAnalyticsPlugin.
   */
  lemma AcceptedIff(a: Spec, b: Spec)
    ensures Accepted(a, b) <==>
      && Valid(b) && Later(a, b)
      && (a.graphAnalytics.None? && b.graphAnalytics.Some? ==>
            (a.graphAnalyticsPlugin == Some(true) && b.graphAnalytics == Some(Plugin))
            || (a.graphAnalyticsPlugin == Some(false) && b.graphAnalytics == Some(Unavailable)))
  {
  }

  /** Every professional-db instance can be upgraded in place, and no other change of tier is accepted. */
  lemma TierChangeAcceptedIff(s: Spec, tier: Tier)
    requires Valid(s) && s.tier != tier
    ensures Accepted(s, s.(tier := tier)) <==> s.tier == ProfessionalDB && tier == BusinessCritical
  {
  }

  /** Any edit of memory, storage, secondariesCount, cdcEnrichmentMode or vectorOptimized is accepted when its result is valid. */
  lemma FreeEditAcceptedIff(s: Spec, memory: Option<string>, storage: Option<string>, secondaries: Option<int>,
                            cdc: Option<string>, vector: Option<bool>)
    requires Valid(s)
    ensures var t := s.(memory := memory, storage := storage, secondariesCount := secondaries,
                        cdcEnrichmentMode := cdc, vectorOptimized := vector);
      Accepted(s, t) <==>
        && (s.tier == FreeDB ==> storage.None?) && (s.tier != FreeDB ==> memory.Some?)
        && (secondaries.Some? ==> s.tier == EnterpriseDB && !s.CreatedThroughV2())
        && (cdc.Some? ==> s.tier in {EnterpriseDB, BusinessCritical} && !s.CreatedThroughV2())
        && (s.MultiDatabase() ==> vector != Some(true))
  {
  }

  // ---- What the rules do not enforce ----

  /**
    The rules are meant to keep graphAnalytics as it was at creation. On an
    instance created without it they do not: since graphAnalyticsPlugin may be
    edited freely, two further updates reach `plugin` and `unavailable` alike.
    Exactly these two values can be reached.
   */
  lemma AnalyticsReachableIff(s: Spec, v: Analytics)
    requires Valid(s) && s.graphAnalytics.None?
    ensures (exists h: seq<Spec> :: History(h) && h[0] == s && h[|h| - 1].graphAnalytics == Some(v)) <==> v != Serverless
  {
    if v != Serverless {
      var edited := s.(graphAnalyticsPlugin := Some(v == Plugin));
      var switched := s.(graphAnalyticsPlugin := None, graphAnalytics := Some(v));
      var h := [s, edited, switched];
      assert Accepted(h[0], h[1]) && Accepted(h[1], h[2]);
      assert History(h) && h[0] == s && h[|h| - 1].graphAnalytics == Some(v);
    } else {
      forall h: seq<Spec> | History(h) && h[0] == s ensures h[|h| - 1].graphAnalytics != Some(v) {
        ServerlessFromCreation(h, 0, |h| - 1);
      }
    }
  }
}
