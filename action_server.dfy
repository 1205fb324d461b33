/**
 * The `/api/pet-action` handler of src/server/index.ts: check the request context, check
 * the payload, then apply one action to a fresh copy of the submitted stats. Nothing is
 * kept between calls.
 */
module ActionServer {
  import opened Wrappers
  import opened PetTypes

  /** What the hosting platform supplies with each request. */
  datatype Context = Context(postId: Option<string>, userId: Option<string>)

  /** The JSON body: both fields may be missing. */
  datatype ActionRequest = ActionRequest(action: Option<string>, currentStats: Option<Stats>)

  /** PetActionResponse together with its HTTP status. */
  datatype ActionResponse =
    | Success(stats: Stats, message: string)
    | Error(httpStatus: int, message: string)

  /** JavaScript truthiness of an optional string: absent and "" are both falsy. */
  predicate Present(o: Option<string>) {
    o.Some? && o.value != ""
  }

  /** The `switch` on the action name; anything but the five names falls to `default`. */
  function ParseAction(name: string): (a: Option<Action>)
    ensures a.Some? ==> ActionName(a.value) == name
    ensures forall b: Action :: name == ActionName(b) ==> a == Some(b)
  {
    if name == "feed" then Some(Feed)
    else if name == "play" then Some(Play)
    else if name == "clean" then Some(Clean)
    else if name == "sleep" then Some(Sleep)
    else if name == "talk" then Some(Talk)
    else None
  }

  /** The effect of one recognised action on a copy of the stats, and its message. */
  function Apply(a: Action, s: Stats): (r: (Stats, string))
    ensures r.0.age == s.age && r.1 != ""
  {
    match a
    case Feed =>
      (s.(hunger := Min(100.0, s.hunger + 25.0), happiness := Min(100.0, s.happiness + 5.0)),
       "\U{1F354} Snoo enjoyed the meal!")
    case Play =>
      (s.(happiness := Min(100.0, s.happiness + 20.0), energy := Max(0.0, s.energy - 10.0)),
       "\U{1F3AE} Snoo had fun playing!")
    case Clean =>
      (s.(cleanliness := Min(100.0, s.cleanliness + 30.0), happiness := Min(100.0, s.happiness + 5.0)),
       "\U{1F9FC} Snoo feels fresh and clean!")
    case Sleep =>
      (s.(energy := Min(100.0, s.energy + 35.0), health := Min(100.0, s.health + 5.0)),
       "\U{1F634} Snoo had a refreshing nap!")
    case Talk =>
      (s.(happiness := Min(100.0, s.happiness + 15.0)),
       "\U{1F4AC} Snoo loves chatting with you!")
  }

  /** The handler: a total function from context and body to a response. */
  function Resolve(ctx: Context, req: ActionRequest): (r: ActionResponse)
    ensures r.Error? ==> r.httpStatus == 400
  {
    if !Present(ctx.postId) || !Present(ctx.userId) then Error(400, "Missing context")
    else if !Present(req.action) || req.currentStats.None? then Error(400, "Missing action or stats")
    else
      match ParseAction(req.action.value)
      case None => Error(400, "Invalid action")
      case Some(a) =>
        var (stats, message) := Apply(a, req.currentStats.value);
        Success(stats, message)
  }

  /** A context check failure is reported before the body is looked at. */
  lemma MissingContextFirst(ctx: Context, req: ActionRequest)
    requires !Present(ctx.postId) || !Present(ctx.userId)
    ensures Resolve(ctx, req) == Error(400, "Missing context")
  {
  }

  /** With a valid context, a missing action name or missing stats is rejected, with no stats. */
  lemma MissingPayload(ctx: Context, req: ActionRequest)
    requires Present(ctx.postId) && Present(ctx.userId)
    requires !Present(req.action) || req.currentStats.None?
    ensures Resolve(ctx, req) == Error(400, "Missing action or stats")
  {
  }

  /** A well-formed request naming no known action is rejected, with no stats. */
  lemma UnknownAction(ctx: Context, name: string, s: Stats)
    requires Present(ctx.postId) && Present(ctx.userId)
    requires name != "" && forall a: Action :: name != ActionName(a)
    ensures Resolve(ctx, ActionRequest(Some(name), Some(s))) == Error(400, "Invalid action")
  {
  }

  /** The response succeeds exactly when the context and payload are present and the name is
      one of the five actions; it then carries Apply's stats and message. */
  lemma ResolveSucceeds(ctx: Context, req: ActionRequest)
    ensures Resolve(ctx, req).Success? <==>
      Present(ctx.postId) && Present(ctx.userId) && req.currentStats.Some?
      && exists a: Action :: req.action == Some(ActionName(a))
    ensures forall a: Action ::
      Present(ctx.postId) && Present(ctx.userId) && req.currentStats.Some?
      && req.action == Some(ActionName(a))
      ==> Resolve(ctx, req) == Success(Apply(a, req.currentStats.value).0, Apply(a, req.currentStats.value).1)
  {
    if Present(ctx.postId) && Present(ctx.userId) && req.currentStats.Some? && req.action.Some? {
      var p := ParseAction(req.action.value);
      if p.Some? {
        assert req.action == Some(ActionName(p.value));
      }
    }
  }

  /** The effect table: each action's change to the five vitals. */
  datatype Delta = Delta(health: real, hunger: real, cleanliness: real, energy: real, happiness: real)

  function Effect(a: Action): (d: Delta) {
    match a
    case Feed => Delta(0.0, 25.0, 0.0, 0.0, 5.0)
    case Play => Delta(0.0, 0.0, 0.0, -10.0, 20.0)
    case Clean => Delta(0.0, 0.0, 30.0, 0.0, 5.0)
    case Sleep => Delta(5.0, 0.0, 0.0, 35.0, 0.0)
    case Talk => Delta(0.0, 0.0, 0.0, 0.0, 15.0)
  }

  function Clamp(x: real): (c: real) { Max(0.0, Min(MaxStat, x)) }

  /** Stats moved by a delta, every vital clamped to [0, 100] and age kept. */
  function Shifted(s: Stats, d: Delta): (r: Stats) {
    Stats(Clamp(s.health + d.health), Clamp(s.hunger + d.hunger), Clamp(s.cleanliness + d.cleanliness),
          Clamp(s.energy + d.energy), Clamp(s.happiness + d.happiness), s.age)
  }

  /** For stats in range, the handler's switch agrees with the effect table clamped to
      [0, 100], and the result stays in range with a non-empty message. */
  lemma ApplyMatchesTable(a: Action, s: Stats)
    requires InRange(s)
    ensures Apply(a, s).0 == Shifted(s, Effect(a))
    ensures InRange(Apply(a, s).0) && Apply(a, s).1 != ""
  {
  }

  /** Fields an action may change. */
  function Touched(a: Action): (fields: set<Field>) {
    match a
    case Feed => {Hunger, Happiness}
    case Play => {Happiness, Energy}
    case Clean => {Cleanliness, Happiness}
    case Sleep => {Energy, Health}
    case Talk => {Happiness}
  }

  /** Whatever the input, only the fields named for the action change; age and every other
      stat are copied unchanged. */
  lemma ApplyFrame(a: Action, s: Stats, f: Field)
    requires f !in Touched(a)
    ensures Get(Apply(a, s).0, f) == Get(s, f)
  {
  }

  /** Out-of-range input is not clamped: only the cap of 100 on increments and the floor of
      0 on play's decrement apply. A changed field is capped when too high, may be lifted
      into range or floored, yet can stay below 0 (feeding hunger -50 gives -25); fields
      the action does not change keep their value, in range or not. */
  lemma ApplyDoesNotClampBelow()
    ensures Apply(Feed, Stats(100.0, -50.0, 100.0, 100.0, 100.0, 0.0)).0.hunger == -25.0
    ensures Apply(Feed, Stats(100.0, 150.0, 100.0, 100.0, 100.0, 0.0)).0.hunger == 100.0
    ensures Apply(Feed, Stats(100.0, -10.0, 100.0, 100.0, 100.0, 0.0)).0.hunger == 15.0
    ensures Apply(Play, Stats(100.0, 100.0, 100.0, -50.0, 100.0, 0.0)).0.energy == 0.0
    ensures Apply(Talk, Stats(-7.0, 100.0, 100.0, 100.0, 100.0, 0.0)).0.health == -7.0
  {
  }

  /** Every success carries stats in range and a message, for a request whose stats were in
      range. */
  lemma ResolveInRange(ctx: Context, req: ActionRequest)
    requires req.currentStats.Some? ==> InRange(req.currentStats.value)
    ensures Resolve(ctx, req).Success? ==>
      InRange(Resolve(ctx, req).stats) && Resolve(ctx, req).message != ""
  {
    if Resolve(ctx, req).Success? {
      var a := ParseAction(req.action.value).value;
      ApplyMatchesTable(a, req.currentStats.value);
    }
  }
}
