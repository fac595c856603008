/** The requests the mediator dispatches: what each carries, checks about itself and asks of its caller. */
module Requests {
  import opened Common
  import opened ValueObjects
  import opened Messaging

  datatype Request =
    | RegisterUser(email: string, displayName: string)
    | RenameUser(userId: string, newDisplayName: string)
    | DeactivateUser(userId: string, reason: Option<string>)
    | GetUser(userId: string)
    | ListUsers(offset: int, limit: int)
  {
    predicate IsCommand() {
      RegisterUser? || RenameUser? || DeactivateUser?
    }

    function RequiredPermission(): Option<string> {
      if RenameUser? || DeactivateUser? then Some("users:write") else None
    }

    // The fields validate() reports errors for.
    function Errors(): set<string> {
      match this
      case RegisterUser(email, name) =>
        (if '@' !in email then {"email"} else {}) + if Strip(name) == "" then {"display_name"} else {}
      case RenameUser(_, name) => if Strip(name) == "" then {"new_display_name"} else {}
      case ListUsers(offset, limit) =>
        (if offset < 0 then {"offset"} else {}) + if !(1 <= limit <= 100) then {"limit"} else {}
      case _ => {}
    }

    // The dataclass fields of a command, by name; its class is not among them.
    function Fields(): map<string, Json>
      requires IsCommand()
    {
      match this
      case RegisterUser(email, name) => map["email" := JString(email), "display_name" := JString(name)]
      case RenameUser(id, name) => map["user_id" := JString(id), "new_display_name" := JString(name)]
      case DeactivateUser(id, reason) =>
        map["user_id" := JString(id), "reason" := if reason.Some? then JString(reason.value) else JNull]
    }
  }

  // The hash of the canonical text of a command's fields, as a parameter.
  type Hash = map<string, Json> -> string

  ghost predicate CollisionFree(hash: Hash) {
    forall a, b :: hash(a) == hash(b) ==> a == b
  }

  function Fingerprint(hash: Hash, request: Request): string
    requires request.IsCommand()
  {
    hash(request.Fields())
  }

  /** A fingerprint identifies its command, although it does not cover the command's class: no two of the
      command classes have the same field names. */
  lemma FingerprintIdentifies(hash: Hash, a: Request, b: Request)
    requires CollisionFree(hash) && a.IsCommand() && b.IsCommand()
    ensures Fingerprint(hash, a) == Fingerprint(hash, b) <==> a == b
  {
    var x, y := a.Fields(), b.Fields();
    if x == y {
      assert "email" in x <==> "email" in y;
      assert "reason" in x <==> "reason" in y;
      match a {
        case RegisterUser(email, name) => assert y["email"] == JString(email) && y["display_name"] == JString(name);
        case RenameUser(id, name) => assert y["user_id"] == JString(id) && y["new_display_name"] == JString(name);
        case DeactivateUser(id, reason) => assert y["user_id"] == JString(id) && y["reason"] == x["reason"];
      }
    }
  }

  /** Whatever a registration's own domain rules accept passes the earlier check too: every error this check
      reports is one the value objects would also raise. */
  lemma ChecksAgree(email: string, name: string)
    ensures MakeEmail(email).Some? && MakeDisplayName(name).Some? ==> RegisterUser(email, name).Errors() == {}
    ensures MakeDisplayName(name).Some? ==> forall id :: RenameUser(id, name).Errors() == {}
  {
    if MakeEmail(email).Some? {
      var e := NormalizeEmail(email);
      var at :| 0 <= at < |e| && e[at] == '@';
      assert Strip(email)[at] == '@';
      StripKeepsOnly(email, at);
    }
  }

  // Every character of the stripped text is one of the text.
  lemma StripKeepsOnly(s: string, k: nat)
    requires k < |Strip(s)|
    ensures Strip(s)[k] in s
  {
    StripLeftStops(s);
    StripRightStops(StripLeft(s));
    var left := StripLeft(s);
    assert Strip(s)[k] == left[k];
    assert left[k] == s[|s| - |left| + k];
  }

  datatype AuthContext = AuthContext(authenticated: bool, permissions: set<string>)

  datatype RequestContext = RequestContext(auth: AuthContext, idempotencyKey: Option<string>)
}
