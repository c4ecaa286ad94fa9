/** Publishing an application to the cluster: internal/deploy/deploy.go. */
module Deploy {
  import opened Wrappers
  import opened Policy
  import opened Store

  /** The SpinApp object as applied; the cluster is a map from its name to it. */
  datatype SpinApp = SpinApp(
    name: string, applicationID: string, tenantID: string, image: string, replicas: int,
    imagePullSecrets: seq<string>, variables: seq<Variable>, resources: Resources)

  datatype VirtualService = VirtualService(name: string, applicationID: string, host: string, gateway: string)

  datatype Config = Config(
    policy: ResourcePolicy, pullSecrets: seq<string>, ingress: bool, publicDomain: string, publicGateway: string)

  /** The request overrides the row's replica count when positive; the result is never below one. */
  function Replicas(app: Application, requested: int): int {
    if requested > 0 then requested else if app.replicas > 0 then app.replicas else 1
  }

  /** The object `Deploy` applies. */
  function Desired(c: Config, app: Application, image: string, requested: int): SpinApp {
    SpinApp(app.name, app.id, app.tenantID, image, Replicas(app, requested), c.pullSecrets, app.variables,
            Clamp(c.policy, app.resources))
  }

  function Service(c: Config, app: Application): VirtualService {
    VirtualService(app.name, app.id, app.name + "." + c.publicDomain, c.publicGateway)
  }

  /** What an applied object says of the application: who it is, what runs, how often, with which variables and resources. */
  ghost predicate Publishes(c: Config, app: Application, image: string, requested: int, s: SpinApp) {
    && s.name == app.name && s.applicationID == app.id && s.tenantID == app.tenantID
    && s.image == image && s.imagePullSecrets == c.pullSecrets && s.variables == app.variables
    && (requested > 0 ==> s.replicas == requested)
    && (requested <= 0 && app.replicas > 0 ==> s.replicas == app.replicas)
    && (requested <= 0 && app.replicas <= 0 ==> s.replicas == 1)
    && Granted(c.policy, app.resources, s.resources)
  }

  /** Nothing but the object that says so is applied. */
  lemma DesiredPublishesIff(c: Config, app: Application, image: string, requested: int, s: SpinApp)
    ensures s == Desired(c, app, image, requested) <==> Publishes(c, app, image, requested, s)
  {
    ClampIsGrantedIff(c.policy, app.resources, s.resources);
  }

  /** What an applied VirtualService says: the application's own subdomain, through the public gateway. */
  ghost predicate Announces(c: Config, app: Application, v: VirtualService) {
    && v.name == app.name && v.applicationID == app.id
    && v.host == app.name + "." + c.publicDomain && v.gateway == c.publicGateway
  }

  /** Public ingress is set up, and the API server takes the call. */
  predicate IngressOn(c: Config, ingressUp: bool) {
    ingressUp && c.ingress && c.publicDomain != "" && c.publicGateway != ""
  }

  /** What every applied object satisfies, whatever the application row held. */
  ghost predicate Publishable(c: Config, s: SpinApp) {
    s.replicas >= 1 && Within(c.policy, s.resources)
  }

  lemma DesiredIsPublishable(c: Config, app: Application, image: string, requested: int)
    requires c.policy.mode == "max" ==> CapsParse(c.policy)
    ensures Publishable(c, Desired(c, app, image, requested))
  {
    ClampObeysPolicy(c.policy, app.resources);
  }

  class Deployer {
    const config: Config
    var spinApps: map<string, SpinApp>
    var services: map<string, VirtualService>

    constructor (config: Config)
      ensures this.config == config && spinApps == map[] && services == map[]
    {
      this.config := config;
      spinApps, services := map[], map[];
    }

    /**
      Applies the SpinApp and, when ingress is configured, its VirtualService.  `spinUp` and
      `ingressUp` say whether the API server accepts each call.
    */
    method Deploy(app: Application, image: string, requested: int, spinUp: bool, ingressUp: bool) returns (ok: bool)
      modifies this
      ensures ok == spinUp
      ensures ok ==> app.name in spinApps && Publishes(config, app, image, requested, spinApps[app.name])
      ensures ok && IngressOn(config, ingressUp) ==> app.name in services && Announces(config, app, services[app.name])
      ensures spinApps == if ok then old(spinApps)[app.name := Desired(config, app, image, requested)] else old(spinApps)
      ensures services ==
        if ok && IngressOn(config, ingressUp) then old(services)[app.name := Service(config, app)] else old(services)
    {
      DesiredPublishesIff(config, app, image, requested, Desired(config, app, image, requested));
      var replicas := requested;
      if replicas <= 0 {
        replicas := app.replicas;
      }
      if replicas <= 0 {
        replicas := 1;
      }
      var applied := Apply(config.policy, app.resources);
      var clean: Resources;
      if applied.Err? {
        clean := Resources(config.policy.cpu.request, config.policy.cpu.limit,
                           config.policy.mem.request, config.policy.mem.limit);
      } else {
        clean := applied.value;
      }
      if !spinUp {
        return false;
      }
      spinApps := spinApps[app.name := SpinApp(app.name, app.id, app.tenantID, image, replicas, config.pullSecrets,
                                               app.variables, clean)];
      if config.ingress && config.publicDomain != "" && config.publicGateway != "" && ingressUp {
        services := services[app.name := VirtualService(app.name, app.id, app.name + "." + config.publicDomain,
                                                        config.publicGateway)];
      }
      return true;
    }

    /** Removes the SpinApp, an absent one included, and then its VirtualService. */
    method Undeploy(name: string, spinUp: bool, ingressUp: bool) returns (ok: bool)
      modifies this
      ensures ok == spinUp
      ensures spinApps == if ok then old(spinApps) - {name} else old(spinApps)
      ensures services == if ok && ingressUp && config.ingress then old(services) - {name} else old(services)
    {
      if !spinUp {
        return false;
      }
      spinApps := spinApps - {name};
      if config.ingress && ingressUp {
        services := services - {name};
      }
      return true;
    }
  }
}
