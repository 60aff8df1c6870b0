/** `joiValidationMiddleware` (src/middleware/joi.validation.ts): validates
    the body, the route params and the query string, each against its own
    schema when one is given, collects the failures of all three, replaces
    each part that passed by its validated value, and then either answers
    400 or hands the request on. Schemas are arbitrary functions here, so
    the aggregation is proved for every validator, not only the ones in
    this system. */
module JoiMiddleware {
  import opened Wrappers
  import opened Text
  import opened Joi

  datatype Location = Body | Params | Query

  /** `schema.validate(part, {abortEarly: false, stripUnknown: true})`. */
  type Schema = Fields -> Validation

  /** `ValidationLocation`: one optional schema per request part. */
  datatype ValidationLocation = ValidationLocation(body: Option<Schema>, params: Option<Schema>, query: Option<Schema>)

  /** The parts of an Express request the middleware reads and writes. */
  datatype Request = Request(
    body: Fields, params: Fields, query: Fields,
    validatedBody: Option<Fields>, validatedParams: Option<Fields>, validatedQuery: Option<Fields>)

  /** One entry of the response's error list for a location. */
  datatype FieldError = FieldError(field: string, message: string, kind: ErrorKind)

  type Errors = map<Location, seq<FieldError>>

  /** `res.status(400).json({message, errors})`, or `next()`. */
  datatype Response = Rejected(status: nat, message: string, errors: Errors) | Next

  const ValidationFailed: string := "Validation failed"

  function SchemaFor(schemas: ValidationLocation, loc: Location): Option<Schema> {
    match loc
    case Body => schemas.body
    case Params => schemas.params
    case Query => schemas.query
  }

  function PartOf(req: Request, loc: Location): Fields {
    match loc
    case Body => req.body
    case Params => req.params
    case Query => req.query
  }

  function ValidatedOf(req: Request, loc: Location): Option<Fields> {
    match loc
    case Body => req.validatedBody
    case Params => req.validatedParams
    case Query => req.validatedQuery
  }

  /** `req.<part> = value; req.validated<Part> = value`. */
  function Replace(req: Request, loc: Location, value: Fields): (r: Request)
    ensures PartOf(r, loc) == value && ValidatedOf(r, loc) == Some(value)
    ensures forall other :: other != loc ==> PartOf(r, other) == PartOf(req, other) && ValidatedOf(r, other) == ValidatedOf(req, other)
  {
    match loc
    case Body => req.(body := value, validatedBody := Some(value))
    case Params => req.(params := value, validatedParams := Some(value))
    case Query => req.(query := value, validatedQuery := Some(value))
  }

  /** `error.details.map(d => ({field: d.path.join('.'), message, type}))`. */
  function ToFieldErrors(details: seq<Detail>): (r: seq<FieldError>)
    ensures |r| == |details|
  {
    seq(|details|, i requires 0 <= i < |details| =>
      FieldError(Join(details[i].path, '.'), details[i].message, details[i].kind))
  }

  /** The location has a schema and its part of the incoming request fails it. */
  predicate Fails(schemas: ValidationLocation, req: Request, loc: Location) {
    SchemaFor(schemas, loc).Some? && SchemaFor(schemas, loc).value(PartOf(req, loc)).Invalid?
  }

  /** The location has a schema and its part of the incoming request passes it. */
  predicate Passes(schemas: ValidationLocation, req: Request, loc: Location) {
    SchemaFor(schemas, loc).Some? && SchemaFor(schemas, loc).value(PartOf(req, loc)).Valid?
  }

  /** The effect the middleware should have on one location, stated
      against the incoming request. */
  predicate LocationHandled(schemas: ValidationLocation, req: Request, loc: Location, req': Request, errors: Errors) {
    && (SchemaFor(schemas, loc).None? ==>
          loc !in errors && PartOf(req', loc) == PartOf(req, loc) && ValidatedOf(req', loc) == ValidatedOf(req, loc))
    && (Fails(schemas, req, loc) ==>
          && loc in errors
          && errors[loc] == ToFieldErrors(SchemaFor(schemas, loc).value(PartOf(req, loc)).details)
          && PartOf(req', loc) == PartOf(req, loc) && ValidatedOf(req', loc) == ValidatedOf(req, loc))
    && (Passes(schemas, req, loc) ==>
          && loc !in errors
          && PartOf(req', loc) == SchemaFor(schemas, loc).value(PartOf(req, loc)).value
          && ValidatedOf(req', loc) == Some(PartOf(req', loc)))
  }

  /** One `if (schemas.<part>) {...}` block. Every other location's part
      and every other location's errors are left as they were. */
  function Step(schemas: ValidationLocation, loc: Location, req: Request, errors: Errors): (r: (Request, Errors))
    requires loc !in errors
    ensures LocationHandled(schemas, req, loc, r.0, r.1)
    ensures forall other :: other != loc ==>
              PartOf(r.0, other) == PartOf(req, other) && ValidatedOf(r.0, other) == ValidatedOf(req, other)
    ensures forall other :: other != loc ==> (other in r.1 <==> other in errors)
    ensures forall other :: other != loc && other in errors ==> r.1[other] == errors[other]
  {
    match SchemaFor(schemas, loc)
    case None => (req, errors)
    case Some(schema) =>
      match schema(PartOf(req, loc))
      case Invalid(details) => (req, errors[loc := ToFieldErrors(details)])
      case Valid(value) => (Replace(req, loc, value), errors)
  }

  /** The three blocks in source order; each sees the part as it came in,
      since a block replaces only its own part. */
  function RunBlocks(schemas: ValidationLocation, req: Request): (Request, Errors) {
    var (r1, e1) := Step(schemas, Body, req, map[]);
    var (r2, e2) := Step(schemas, Params, r1, e1);
    Step(schemas, Query, r2, e2)
  }

  lemma RunBlocksHandles(schemas: ValidationLocation, req: Request, loc: Location)
    ensures LocationHandled(schemas, req, loc, RunBlocks(schemas, req).0, RunBlocks(schemas, req).1)
    ensures loc in RunBlocks(schemas, req).1 <==> Fails(schemas, req, loc)
  {
    var (r1, e1) := Step(schemas, Body, req, map[]);
    var (r2, e2) := Step(schemas, Params, r1, e1);
    var (r3, e3) := Step(schemas, Query, r2, e2);
    assert (r3, e3) == RunBlocks(schemas, req);
    match loc
    case Body =>
      assert Fails(schemas, req, Body) <==> Body in e1;
    case Params =>
      assert PartOf(r1, Params) == PartOf(req, Params) && ValidatedOf(r1, Params) == ValidatedOf(req, Params);
      assert Fails(schemas, r1, Params) == Fails(schemas, req, Params);
      assert Passes(schemas, r1, Params) == Passes(schemas, req, Params);
    case Query =>
      assert PartOf(r2, Query) == PartOf(req, Query) && ValidatedOf(r2, Query) == ValidatedOf(req, Query);
      assert Fails(schemas, r2, Query) == Fails(schemas, req, Query);
      assert Passes(schemas, r2, Query) == Passes(schemas, req, Query);
  }

  /** The three blocks, stated for every location at once. */
  lemma RunBlocksHandleAll(schemas: ValidationLocation, req: Request)
    ensures forall loc :: LocationHandled(schemas, req, loc, RunBlocks(schemas, req).0, RunBlocks(schemas, req).1)
    ensures forall loc :: loc in RunBlocks(schemas, req).1 <==> Fails(schemas, req, loc)
  {
    forall loc
      ensures LocationHandled(schemas, req, loc, RunBlocks(schemas, req).0, RunBlocks(schemas, req).1)
      ensures loc in RunBlocks(schemas, req).1 <==> Fails(schemas, req, loc)
    {
      RunBlocksHandles(schemas, req, loc);
    }
  }

  /** The errors a response carries (none for `next()`). */
  function ErrorsOf(resp: Response): Errors {
    if resp.Rejected? then resp.errors else map[]
  }

  /** The middleware: body, then params, then query, then the verdict. Each
      location is validated only when it has a schema, against the part as
      it came in; a failure is recorded under its location and stops
      nothing; only a passing part is replaced. The answer is 400
      "Validation failed" exactly when some location failed, and `next()`
      exactly when none did. */
  function Middleware(schemas: ValidationLocation, req: Request): (r: (Request, Response))
    ensures forall loc :: LocationHandled(schemas, req, loc, r.0, ErrorsOf(r.1))
    ensures r.1.Rejected? <==> exists loc :: Fails(schemas, req, loc)
    ensures r.1.Next? <==> forall loc :: !Fails(schemas, req, loc)
    ensures r.1.Rejected? ==> r.1.status == 400 && r.1.message == ValidationFailed
    ensures r.1.Rejected? ==> forall loc :: loc in r.1.errors <==> Fails(schemas, req, loc)
  {
    var (req', errors) := RunBlocks(schemas, req);
    RunBlocksHandleAll(schemas, req);
    if |errors| > 0 then
      var loc :| loc in errors;
      assert Fails(schemas, req, loc);
      (req', Rejected(400, ValidationFailed, errors))
    else
      assert errors == map[];
      (req', Next)
  }

  /** The `field` of an error the Joi engine produced for a flat object is
      the name of the key, and splitting it on "." gives the path back. */
  lemma FieldIsJoinedPath(details: seq<Detail>, i: nat)
    requires i < |details|
    requires |details[i].path| >= 1
    requires forall k :: 0 <= k < |details[i].path| ==> '.' !in details[i].path[k]
    ensures Split(ToFieldErrors(details)[i].field, '.') == details[i].path
    ensures |details[i].path| == 1 ==> ToFieldErrors(details)[i].field == details[i].path[0]
  {
    SplitJoin(details[i].path, '.');
  }
}
