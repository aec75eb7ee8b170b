/** The role guard routes depend on, and how it composes with the
    authentication middleware that attaches the user it reads. */
module Dependency {
  import opened Common
  import opened Records
  import opened AuthMiddleware
  import UserSchemas

  /** The roles allowed to create and delete products. */
  const ProductManagers: seq<string> := ["admin", "sale", "hr"]

  /** `role_required(*roles)`: 401 without a user, 403 for a user whose
      role is not allowed; otherwise the user itself. */
  function RoleRequired(roles: seq<string>, user: Option<User>): (r: Result<User, int>)
    ensures r.Err? ==> r.error == 401 || r.error == 403
    ensures r.Ok? <==> user.Some? && user.value.role in roles
    ensures r.Ok? ==> r.value == user.value
    ensures user.None? ==> r == Err(401)
  {
    match user
    case None => Err(401)
    case Some(u) => if u.role !in roles then Err(403) else Ok(u)
  }

  /** The 401 for a missing user comes before any role check, whatever the
      allowed roles. */
  lemma MissingUserBeforeRole(roles: seq<string>, other: seq<string>)
    ensures RoleRequired(roles, None) == RoleRequired(other, None) == Err(401)
  {
  }

  /** Every product-manager role is one a registration may choose, and the
      default "user" role is not a product manager. */
  lemma ManagerRolesRegistrable(role: string)
    requires role in ProductManagers
    ensures UserSchemas.RoleValidator(role) == Ok(role)
    ensures UserSchemas.RoleValidator("user").Ok? && "user" !in ProductManagers
  {
  }

  /** Behind the middleware, a gated route's role guard admits a request
      exactly when its token names a stored user whose role is allowed. */
  lemma GatedRouteAdmits(decode: string -> Option<Payload>, users: map<int, User>, req: Request, roles: seq<string>, u: User)
    requires Gated(ExcludePaths, req)
    requires Dispatch(decode, users, req).Forward?
    ensures RoleRequired(roles, Dispatch(decode, users, req).user) == Ok(u) <==>
              && req.accessToken.Some? && req.accessToken.value != ""
              && NamesUser(decode, users, req.accessToken.value, u)
              && u.role in roles
  {
    ForwardsTokenUser(decode, users, req, u);
  }

  // ------------------------------------------- product creation is locked

  /** POST "/product/" is on the excluded list, so the middleware never
      attaches a user and the product-manager guard refuses every creation
      request with 401, whatever token it carries. */
  lemma ProductCreationAlwaysUnauthorized(decode: string -> Option<Payload>, users: map<int, User>, token: Option<string>)
    ensures Dispatch(decode, users, Request("POST", "/product/", token)) == Forward(None)
    ensures RoleRequired(ProductManagers, Dispatch(decode, users, Request("POST", "/product/", token)).user) == Err(401)
  {
    assert "/product/" in ExcludePaths;
  }

  /** The exclusion list without "/product/": reading the product list stays
      public through the GET rule. */
  const FixedExcludePaths: set<string> := ExcludePaths - {"/product/"}

  function FixedDispatch(decode: string -> Option<Payload>, users: map<int, User>, req: Request): Decision
  {
    Chain(FixedExcludePaths, decode, users, req)
  }

  /** With the fixed list, listing products is still public, a product
      manager with a login token can create products, and every other
      request is decided as before. */
  lemma FixedListUnlocksCreation(decode: string -> Option<Payload>, users: map<int, User>, token: string, id: int, req: Request)
    requires token != ""
    requires decode(token).Some?
    requires Get(decode(token).value, "sub") == Some(Text(ShowInt(id)))
    requires Get(decode(token).value, "type") == Some(Text("access"))
    requires id in users && users[id].role in ProductManagers
    ensures FixedDispatch(decode, users, Request("GET", "/product/", None)) == Forward(None)
    ensures FixedDispatch(decode, users, Request("POST", "/product/", Some(token))) == Forward(Some(users[id]))
    ensures RoleRequired(ProductManagers, FixedDispatch(decode, users, Request("POST", "/product/", Some(token))).user) == Ok(users[id])
    ensures req.path != "/product/" ==> FixedDispatch(decode, users, req) == Dispatch(decode, users, req)
  {
    var post := Request("POST", "/product/", Some(token));
    assert "/product/"[..9] == "/product/";
    assert RStrip("/product/", '/') == "/product" by {
      assert "/product/"[..8] == "/product";
    }
    assert "/product" !in ExcludePaths;
    assert !Excluded(FixedExcludePaths, post.path);
    ParseShowInt(id);
    if req.path != "/product/" {
      assert req.path in FixedExcludePaths <==> req.path in ExcludePaths;
      var t := RStrip(req.path, '/');
      assert t != "/product/" by {
        assert "/product/"[8] == '/';
      }
      assert t in FixedExcludePaths <==> t in ExcludePaths;
    }
  }
}
