/** Which upstream model each seat runs, and which seats can run any. */
module AccountModel {
  import opened Text
  import opened Router

  function VendorFamily(vendor: string): string {
    var v := Lower(Trim(vendor));
    if v in {"claude", "anthropic"} then "claude"
    else if v in {"codex", "openai"} then "openai"
    else v
  }

  function ModelFamily(model: string): string {
    var m := Lower(Trim(model));
    if "claude" <= m then "claude"
    else if "gpt" <= m || "o1" <= m || "o3" <= m || "o4" <= m || Contains(m, "codex") then "openai"
    else ""
  }

  // Models and vendors of no known family go with everything.
  predicate ServesModel(a: Account, model: string) {
    || Trim(model) == ""
    || ModelFamily(model) == ""
    || VendorFamily(a.vendor) == ""
    || ModelFamily(model) == VendorFamily(a.vendor)
  }

  function Server(a: Account): string -> bool {
    (model: string) => ServesModel(a, model)
  }

  // The choice between trimmed model names: the requested one, the seat's own, the route's.
  function Resolve(serves: string -> bool, req: string, own: string, dflt: string): (string, bool) {
    if req != "" && serves(req) then (req, true)
    else if own != "" then (own, true)
    else if dflt != "" && serves(dflt) then (dflt, true)
    else (req, serves(req))
  }

  // The model sent upstream, and whether the seat can run it.
  function ResolveOutboundModel(request: string, a: Account, routeDefault: string): (string, bool) {
    Resolve(Server(a), Trim(request), Trim(a.defaultModel), Trim(routeDefault))
  }

  // A request body: a JSON object with its model and everything else, or some other text.
  datatype Body = Request(model: string, rest: string) | OtherText(text: string)

  function ModelOf(body: Body): string {
    if body.Request? then body.model else ""
  }

  function ServableTest(model: string, routeDefault: string): Account -> bool {
    (a: Account) => ResolveOutboundModel(model, a, routeDefault).1
  }

  function KeepServable(accounts: seq<Account>, servable: Account -> bool): seq<Account> {
    var out := Filter(accounts, servable);
    if out == [] then accounts else out
  }

  function FilterServable(accounts: seq<Account>, body: Body, routeDefault: string): seq<Account> {
    KeepServable(accounts, ServableTest(ModelOf(body), routeDefault))
  }

  function ApplyAccountModel(body: Body, a: Account, routeDefault: string): Body {
    var next := ResolveOutboundModel(ModelOf(body), a, routeDefault).0;
    if body.OtherText? || next == "" || next == Trim(body.model) then body
    else body.(model := next)
  }

  /** The pool holds the servable seats in order, or every seat when none is servable. */
  lemma {:induction false} PoolIsServableOrWhole(accounts: seq<Account>, servable: Account -> bool)
    ensures var pool := KeepServable(accounts, servable);
      && (forall a :: a in pool <==> (a in accounts && (servable(a) || NoneServable(accounts, servable))))
      && (accounts != [] ==> pool != [])
      && (DistinctIds(accounts) ==> DistinctIds(pool))
  {
    var out := Filter(accounts, servable);
    FilterMembers(accounts, servable);
    if out != [] {
      assert out[0] in out;
    } else {
      assert forall i :: 0 <= i < |accounts| ==> accounts[i] !in out;
    }
    if DistinctIds(accounts) {
      FilterKeepsOrder(accounts, servable, (a: Account, b: Account) => a.id != b.id);
    }
  }

  predicate NoneServable(accounts: seq<Account>, servable: Account -> bool) {
    forall i :: 0 <= i < |accounts| ==> !servable(accounts[i])
  }

  lemma {:induction false} ResolveTwice(serves: string -> bool, req: string, own: string, dflt: string)
    ensures var next := Resolve(serves, req, own, dflt).0;
            Resolve(serves, next, own, dflt).0 == next
  {
  }

  lemma {:induction false} ResolvedIsOneOf(serves: string -> bool, req: string, own: string, dflt: string)
    ensures Resolve(serves, req, own, dflt).0 in {req, own, dflt}
  {
  }

  /** Rewriting the model for a seat once is enough: a second rewriting changes nothing. */
  lemma {:induction false} ApplyAccountModelIdempotent(body: Body, a: Account, routeDefault: string)
    ensures var once := ApplyAccountModel(body, a, routeDefault);
            ApplyAccountModel(once, a, routeDefault) == once
  {
    var serves := Server(a);
    var req, own, dflt := Trim(ModelOf(body)), Trim(a.defaultModel), Trim(routeDefault);
    var next := Resolve(serves, req, own, dflt).0;
    ResolvedIsOneOf(serves, req, own, dflt);
    TrimIsTrimmed(ModelOf(body));
    TrimIsTrimmed(a.defaultModel);
    TrimIsTrimmed(routeDefault);
    TrimOfTrimmed(next);
    ResolveTwice(serves, req, own, dflt);
  }

  // ---------------------------------------------------------------------------
  // Who serves what
  // ---------------------------------------------------------------------------

  predicate NamesClaude(model: string) {
    "claude" <= Lower(Trim(model))
  }

  predicate NamesOpenAI(model: string) {
    var m := Lower(Trim(model));
    !NamesClaude(model) &&
    ("gpt" <= m || "o1" <= m || "o3" <= m || "o4" <= m || exists i: nat :: i <= |m| && "codex" <= m[i..])
  }

  /** A seat refuses exactly the models of another family: a claude model everywhere but at
      claude and anthropic, a gpt, o1, o3, o4 or codex model everywhere but at openai and
      codex. A seat of no vendor refuses nothing. */
  lemma {:induction false} RefusesOtherFamilies(a: Account, model: string)
    ensures var v := Lower(Trim(a.vendor));
      !ServesModel(a, model)
      <==> || (NamesClaude(model) && v !in {"claude", "anthropic", ""})
           || (NamesOpenAI(model) && v !in {"openai", "codex", ""})
  {
    ContainsAt(Lower(Trim(model)), "codex");
  }

  // The model sent upstream and whether the seat can run it: the requested model if the
  // seat serves it, else the seat's own, else the route's if the seat serves that.
  predicate Sends(a: Account, request: string, routeDefault: string, sent: string, can: bool) {
    var req, own, dflt := Trim(request), Trim(a.defaultModel), Trim(routeDefault);
    if req != "" && ServesModel(a, req) then sent == req && can
    else if own != "" then sent == own && can
    else if dflt != "" && ServesModel(a, dflt) then sent == dflt && can
    else sent == req && (can <==> ServesModel(a, req))
  }

  // The model named in the body: the one to be sent, unless there is none or it was named.
  predicate Renamed(before: string, sent: string, after: string) {
    if sent == "" || sent == Trim(before) then after == before else after == sent
  }

  /** The body a seat is sent names that model, and is otherwise the request's; and a seat
      is servable exactly when it can run it. */
  lemma {:induction false} SeatIsSent(a: Account, model: string, rest: string, routeDefault: string)
    ensures var body := ApplyAccountModel(Request(model, rest), a, routeDefault);
      && body.Request? && body.rest == rest
      && exists m: string ::
           Sends(a, model, routeDefault, m, ServableTest(model, routeDefault)(a)) && Renamed(model, m, body.model)
  {
    var (m, can) := ResolveOutboundModel(model, a, routeDefault);
    assert Sends(a, model, routeDefault, m, ServableTest(model, routeDefault)(a));
    assert Renamed(model, m, ApplyAccountModel(Request(model, rest), a, routeDefault).model);
  }

  lemma {:induction false} OtherTextIsSentAsItIs(a: Account, text: string, routeDefault: string)
    ensures ApplyAccountModel(OtherText(text), a, routeDefault) == OtherText(text)
    ensures ModelOf(OtherText(text)) == ""
  {
  }
}
