/** Platform resource policy: internal/policy/resources.go. */
module Policy {
  import opened Wrappers

  /** Kubernetes quantity strings; "" means unset. */
  datatype Resources = Resources(cpuRequest: string, cpuLimit: string, memoryRequest: string, memoryLimit: string)

  datatype Range = Range(request: string, limit: string)

  /** `parse` stands for resource.ParseQuantity followed by Cmp on the parsed values. */
  datatype ResourcePolicy = ResourcePolicy(mode: string, cpu: Range, mem: Range, parse: string -> Option<real>)

  datatype PolicyError =
    | Violation(field: string, user: string, cap: string)
    | BadQuantity(field: string, user: string)
    | BadCap(field: string, cap: string)
    | UnknownMode(mode: string)

  function Platform(p: ResourcePolicy): Resources {
    Resources(p.cpu.request, p.cpu.limit, p.mem.request, p.mem.limit)
  }

  function CheckMax(p: ResourcePolicy, field: string, user: string, cap: string): Option<PolicyError> {
    if user == "" || cap == "" then None
    else if p.parse(user).None? then Some(BadQuantity(field, user))
    else if p.parse(cap).None? then Some(BadCap(field, cap))
    else if p.parse(user).value > p.parse(cap).value then Some(Violation(field, user, cap))
    else None
  }

  function Apply(p: ResourcePolicy, user: Resources): Result<Resources, PolicyError> {
    if p.mode == "" || p.mode == "open" then Ok(user)
    else if p.mode == "forced" then Ok(Platform(p))
    else if p.mode == "max" then
      var e1 := CheckMax(p, "cpuRequest", user.cpuRequest, p.cpu.request);
      if e1.Some? then Err(e1.value) else
      var e2 := CheckMax(p, "cpuLimit", user.cpuLimit, p.cpu.limit);
      if e2.Some? then Err(e2.value) else
      var e3 := CheckMax(p, "memoryRequest", user.memoryRequest, p.mem.request);
      if e3.Some? then Err(e3.value) else
      var e4 := CheckMax(p, "memoryLimit", user.memoryLimit, p.mem.limit);
      if e4.Some? then Err(e4.value) else Ok(user)
    else Err(UnknownMode(p.mode))
  }

  /** What the deployer falls back on when Apply refuses. */
  function Clamp(p: ResourcePolicy, user: Resources): Resources {
    match Apply(p, user)
    case Ok(r) => r
    case Err(_) => Platform(p)
  }

  // ---------- what a policy promises ----------

  /** The cap does not bind, or both sides parse and the value is within it. */
  ghost predicate UnderCap(p: ResourcePolicy, user: string, cap: string) {
    user == "" || cap == "" ||
    (p.parse(user).Some? && p.parse(cap).Some? && p.parse(user).value <= p.parse(cap).value)
  }

  ghost predicate Within(p: ResourcePolicy, r: Resources) {
    (p.mode == "forced" ==> r == Platform(p)) &&
    (p.mode == "max" ==>
      && UnderCap(p, r.cpuRequest, p.cpu.request) && UnderCap(p, r.cpuLimit, p.cpu.limit)
      && UnderCap(p, r.memoryRequest, p.mem.request) && UnderCap(p, r.memoryLimit, p.mem.limit))
  }

  predicate CapParses(p: ResourcePolicy, cap: string) {
    cap == "" || p.parse(cap).Some?
  }

  predicate CapsParse(p: ResourcePolicy) {
    CapParses(p, p.cpu.request) && CapParses(p, p.cpu.limit) && CapParses(p, p.mem.request) && CapParses(p, p.mem.limit)
  }

  predicate KnownMode(p: ResourcePolicy) {
    p.mode in ["", "open", "max", "forced"]
  }

  /** An accepted value obeys the policy and is a fixed point: applying the policy again changes nothing. */
  lemma AcceptedIsFixedPoint(p: ResourcePolicy, user: Resources)
    requires Apply(p, user).Ok?
    ensures Within(p, Apply(p, user).value)
    ensures Apply(p, Apply(p, user).value) == Apply(p, user)
  {
  }

  /** Under a known mode the policy refuses exactly the values that break a cap. */
  lemma RejectsExactlyViolations(p: ResourcePolicy, user: Resources)
    requires KnownMode(p) && p.mode != "forced"
    ensures Apply(p, user).Err? <==> !Within(p, user)
    ensures Apply(p, user).Ok? ==> Apply(p, user).value == user
  {
  }

  /** The policy leaves these values to the user. */
  ghost predicate Allowed(p: ResourcePolicy, user: Resources) {
    KnownMode(p) && p.mode != "forced" && Within(p, user)
  }

  /** What a deploy puts in for these values: themselves when they are allowed, the platform's, field by field, when not. */
  ghost predicate Granted(p: ResourcePolicy, user: Resources, r: Resources) {
    if Allowed(p, user) then r == user
    else
      && r.cpuRequest == p.cpu.request && r.cpuLimit == p.cpu.limit
      && r.memoryRequest == p.mem.request && r.memoryLimit == p.mem.limit
  }

  lemma ClampIsGrantedIff(p: ResourcePolicy, user: Resources, r: Resources)
    ensures r == Clamp(p, user) <==> Granted(p, user, r)
  {
    if KnownMode(p) && p.mode != "forced" { RejectsExactlyViolations(p, user); }
  }

  /** Under a known mode but forced, a deploy keeps the stored values exactly when they obey the policy or are what it falls back on. */
  lemma ClampKeepsIff(p: ResourcePolicy, user: Resources)
    requires KnownMode(p) && p.mode != "forced"
    ensures Clamp(p, user) == user <==> Within(p, user) || user == Resources(p.cpu.request, p.cpu.limit, p.mem.request, p.mem.limit)
  {
    ClampIsGrantedIff(p, user, user);
  }

  /** Whatever was stored, the deployed values obey a policy whose caps parse. */
  lemma ClampObeysPolicy(p: ResourcePolicy, user: Resources)
    requires p.mode == "max" ==> CapsParse(p)
    ensures Within(p, Clamp(p, user))
  {
  }

  /**
    The deployed values obey the policy for every stored value exactly when, in max mode, every
    cap is empty or parses: a cap that does not parse is itself what a refused deploy falls back on.
  */
  lemma ClampObeysPolicyIff(p: ResourcePolicy)
    ensures (forall user :: Within(p, Clamp(p, user))) <==> (p.mode == "max" ==> CapsParse(p))
  {
    if p.mode == "max" && !CapsParse(p) {
      var bad :=
        if !CapParses(p, p.cpu.request) then Resources(p.cpu.request, "", "", "")
        else if !CapParses(p, p.cpu.limit) then Resources("", p.cpu.limit, "", "")
        else if !CapParses(p, p.mem.request) then Resources("", "", p.mem.request, "")
        else Resources("", "", "", p.mem.limit);
      assert Apply(p, bad).Err?;
      assert !Within(p, Clamp(p, bad));
    } else {
      forall user ensures Within(p, Clamp(p, user)) {
        ClampObeysPolicy(p, user);
      }
    }
  }
}
