/** The middleware run with this system's own schemas, as it would answer
    if a route installed it: a credential body with no id, and a file
    listing with no query. No route of the program installs it. */
module ValidatedRequests {
  import opened Wrappers
  import opened Joi
  import opened AuthValidation
  import opened FileValidation
  import opened JoiMiddleware

  function EmptyRequest(): Request {
    Request(map[], map[], map[], None, None, None)
  }

  /** If the middleware checked a body with the sign-up schema, the body
      errors for a missing id would include the field "id" with the
      schema's message. */
  lemma MissingIdFieldError(body: Fields)
    requires "id" !in body
    ensures SignUpSchema(body).Invalid?
    ensures FieldError("id", "ID is required", AnyRequired) in ToFieldErrors(SignUpSchema(body).details)
  {
    var details := SignUpSchema(body).details;
    MissingCredentialReported(body, "id");
    var k :| 0 <= k < |details| && details[k] == Detail(["id"], "ID is required", AnyRequired);
    assert ToFieldErrors(details)[k] == FieldError("id", "ID is required", AnyRequired);
  }

  /** With the sign-up schema installed on the body, a body without an id
      is answered 400, and the body's errors
      name the field "id" with the schema's message; params and query,
      having no schema, are not mentioned. */
  lemma CredentialsWithoutId(body: Fields)
    requires "id" !in body
    ensures var (_, resp) := Middleware(ValidationLocation(Some(SignUpSchema), None, None), EmptyRequest().(body := body));
            && resp.Rejected?
            && resp.errors.Keys == {Body}
            && FieldError("id", "ID is required", AnyRequired) in resp.errors[Body]
  {
    var schemas := ValidationLocation(Some(SignUpSchema), None, None);
    var req := EmptyRequest().(body := body);
    MissingIdFieldError(body);
    var r := Middleware(schemas, req);
    assert Fails(schemas, req, Body);
    assert LocationHandled(schemas, req, Body, r.0, ErrorsOf(r.1));
    forall loc: Location ensures loc in r.1.errors <==> loc == Body {
      assert loc != Body ==> SchemaFor(schemas, loc).None?;
    }
  }

  /** If a route installed the middleware with the list schema on the
      query, an empty query would pass and the next handler would find the
      query replaced by page 1 and list size 10. */
  lemma ListingWithEmptyQuery(numeral: Numeral)
    ensures var schema := (q: Fields) => GetFilesSchema(q, numeral);
            var (req', resp) := Middleware(ValidationLocation(None, None, Some(schema)), EmptyRequest());
            && resp.Next?
            && req'.query == map["page" := Num(1.0), "list_size" := Num(10.0)]
            && req'.validatedQuery == Some(req'.query)
  {
    var schema := (q: Fields) => GetFilesSchema(q, numeral);
    var schemas := ValidationLocation(None, None, Some(schema));
    ListQueryDefaults(numeral);
    assert Passes(schemas, EmptyRequest(), Query);
  }
}
