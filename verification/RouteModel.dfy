/** A route to one app instance, and the two comparisons the routing table makes between routes. */
module RouteModel {
  import opened Options

  const PROCESS_WEB := "web"
  const PROCESS_EXTERNAL_EXPORTER := "external_exporter"

  datatype Tags = Tags(
    processType: string, processInstanceId: string, component: string, instanceId: string,
    spaceName: string, organizationId: string, processId: string, organizationName: string,
    sourceId: string, appId: string, appName: string, spaceId: string)

  datatype Route = Route(
    privateInstanceId: string, tags: Tags, serverCertDomainSan: string, address: string,
    tls: bool, ttl: int, urlParams: map<string, seq<string>>, metricsPath: string, host: string)

  /** The fields by which two routes are the same route. */
  datatype Identity = Identity(
    privateInstanceId: string, serverCertDomainSan: string, address: string, host: string,
    instanceId: string, processInstanceId: string)

  /** The six tags whose change makes the table replace a route. */
  datatype Ownership = Ownership(
    appId: string, appName: string, organizationId: string, organizationName: string,
    spaceId: string, spaceName: string)

  function IdentityOf(r: Route): Identity {
    Identity(r.privateInstanceId, r.serverCertDomainSan, r.address, r.host,
             r.tags.instanceId, r.tags.processInstanceId)
  }

  function OwnershipOf(r: Route): Ownership {
    Ownership(r.tags.appId, r.tags.appName, r.tags.organizationId, r.tags.organizationName,
              r.tags.spaceId, r.tags.spaceName)
  }

  predicate Equal(r: Route, r2: Option<Route>) {
    && r2.Some?
    && r.privateInstanceId == r2.value.privateInstanceId
    && r.serverCertDomainSan == r2.value.serverCertDomainSan
    && r.address == r2.value.address
    && r.host == r2.value.host
    && r.tags.instanceId == r2.value.tags.instanceId
    && r.tags.processInstanceId == r2.value.tags.processInstanceId
  }

  predicate NeedUpdate(r: Route, r2: Option<Route>) {
    && r2.Some?
    && (|| r.tags.appId != r2.value.tags.appId
        || r.tags.appName != r2.value.tags.appName
        || r.tags.organizationId != r2.value.tags.organizationId
        || r.tags.organizationName != r2.value.tags.organizationName
        || r.tags.spaceId != r2.value.tags.spaceId
        || r.tags.spaceName != r2.value.tags.spaceName)
  }

  /**
   * Field by field: another address, host, certificate name or any of the three instance ids makes another
   * route; another port type, lifetime, path, parameters or owner does not.
   */
  lemma WhatMakesAnotherRoute(r: Route, x: string)
    ensures Equal(r, Some(r.(address := x))) <==> x == r.address
    ensures Equal(r, Some(r.(host := x))) <==> x == r.host
    ensures Equal(r, Some(r.(serverCertDomainSan := x))) <==> x == r.serverCertDomainSan
    ensures Equal(r, Some(r.(privateInstanceId := x))) <==> x == r.privateInstanceId
    ensures Equal(r, Some(r.(tags := r.tags.(instanceId := x)))) <==> x == r.tags.instanceId
    ensures Equal(r, Some(r.(tags := r.tags.(processInstanceId := x)))) <==> x == r.tags.processInstanceId
    ensures forall r2: Route :: Equal(r, Some(r2.(
              address := r.address, host := r.host, serverCertDomainSan := r.serverCertDomainSan,
              privateInstanceId := r.privateInstanceId,
              tags := r2.tags.(instanceId := r.tags.instanceId, processInstanceId := r.tags.processInstanceId))))
    ensures !Equal(r, None)
  {
  }

  /** Equal is an equivalence, the one given by the identity. */
  lemma EqualIsSameIdentity(r: Route, r2: Route)
    ensures Equal(r, Some(r2)) <==> IdentityOf(r) == IdentityOf(r2)
  {
  }

  /** The ids and names of app, organization and space, and no other field, ask for an update. */
  lemma WhatNeedsAnUpdate(r: Route, x: string)
    ensures NeedUpdate(r, Some(r.(tags := r.tags.(appId := x)))) <==> x != r.tags.appId
    ensures NeedUpdate(r, Some(r.(tags := r.tags.(appName := x)))) <==> x != r.tags.appName
    ensures NeedUpdate(r, Some(r.(tags := r.tags.(organizationId := x)))) <==> x != r.tags.organizationId
    ensures NeedUpdate(r, Some(r.(tags := r.tags.(organizationName := x)))) <==> x != r.tags.organizationName
    ensures NeedUpdate(r, Some(r.(tags := r.tags.(spaceId := x)))) <==> x != r.tags.spaceId
    ensures NeedUpdate(r, Some(r.(tags := r.tags.(spaceName := x)))) <==> x != r.tags.spaceName
    ensures forall r2: Route :: !NeedUpdate(r, Some(r2.(tags := r2.tags.(
              appId := r.tags.appId, appName := r.tags.appName, organizationId := r.tags.organizationId,
              organizationName := r.tags.organizationName, spaceId := r.tags.spaceId,
              spaceName := r.tags.spaceName))))
    ensures !NeedUpdate(r, None)
  {
  }

  lemma UpdateIsOtherOwnership(r: Route, r2: Route)
    ensures NeedUpdate(r, Some(r2)) <==> OwnershipOf(r) != OwnershipOf(r2)
  {
  }
}
