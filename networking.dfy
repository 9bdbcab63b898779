/** Typed request-scoped values keyed by private tokens (package networking). */
module Networking {
  import opened Values

  /** A context key.  Keys are compared by identity, so two tokens made
      with the same name are still different keys. */
  class ContextToken {
    const name: string

    constructor (name: string)
      ensures this.name == name
    {
      this.name := name;
    }

    /** String: the token's name. */
    function String(): string {
      name
    }
  }

  /** A request context as context.WithValue builds it: a chain of
      key/value bindings over the empty background context. */
  datatype Context = Background | WithValue(parent: Context, key: ContextToken, val: Val)

  /** The keys bound somewhere in the chain. */
  function Bound(ctx: Context): set<ContextToken> {
    match ctx
    case Background => {}
    case WithValue(parent, k, _) => Bound(parent) + {k}
  }

  /** The values stored somewhere in the chain. */
  function Held(ctx: Context): set<Val> {
    match ctx
    case Background => {}
    case WithValue(parent, _, v) => Held(parent) + {v}
  }

  /** Context.Value: the innermost binding of `key`, or nil when there is
      none; a key never bound reads nil, and what is read was stored. */
  function Value(ctx: Context, key: ContextToken): (r: Val)
    ensures key !in Bound(ctx) ==> r == VNil
    ensures r == VNil || r in Held(ctx)
  {
    match ctx
    case Background => VNil
    case WithValue(parent, k, v) => if k == key then v else Value(parent, key)
  }

  /** A new binding is what its key now reads ... */
  lemma ValueOfNewBinding(ctx: Context, key: ContextToken, v: Val)
    ensures Value(WithValue(ctx, key, v), key) == v
  {
  }

  /** ... and every other key reads what it read before. */
  lemma ValueOfOtherKey(ctx: Context, key: ContextToken, v: Val, other: ContextToken)
    requires other != key
    ensures Value(WithValue(ctx, key, v), other) == Value(ctx, other)
  {
  }

  /** A key bound more than once reads its latest value; the earlier
      bindings of it are shadowed, whatever lies between. */
  lemma {:induction false} ValueShadowed(ctx: Context, key: ContextToken, v: Val, between: seq<(ContextToken, Val)>, w: Val)
    requires forall j :: 0 <= j < |between| ==> between[j].0 != key
    ensures Value(WithValue(Stack(WithValue(ctx, key, v), between), key, w), key) == w
    ensures Value(Stack(WithValue(ctx, key, v), between), key) == v
    decreases |between|
  {
    if between != [] {
      ValueShadowed(ctx, key, v, between[..|between| - 1], w);
    }
  }

  /** The context with the bindings `bs` added, in order, on top of `ctx`. */
  function Stack(ctx: Context, bs: seq<(ContextToken, Val)>): Context
    decreases |bs|
  {
    if bs == [] then ctx else WithValue(Stack(ctx, bs[..|bs| - 1]), bs[|bs| - 1].0, bs[|bs| - 1].1)
  }

  /** A key that none of the bindings uses reads nil, whatever other keys
      are bound. */
  lemma {:induction false} ValueUnbound(bs: seq<(ContextToken, Val)>, key: ContextToken)
    requires forall j :: 0 <= j < |bs| ==> bs[j].0 != key
    ensures Value(Stack(Background, bs), key) == VNil
    decreases |bs|
  {
    if bs != [] {
      ValueUnbound(bs[..|bs| - 1], key);
    }
  }

  /** Everything of an *http.Request that is not its context. */
  datatype RequestHead = RequestHead(verb: string, url: string)

  /** An *http.Request.  The helpers never change a request: a new context
      goes into a shallow copy (Request.WithContext). */
  class Request {
    const head: RequestHead
    const context: Context

    constructor (head: RequestHead, context: Context)
      ensures this.head == head && this.context == context
    {
      this.head := head;
      this.context := context;
    }
  }

  /** http.Request.WithContext: a copy of the request carrying `ctx`. */
  method CopyWithContext(request: Request, ctx: Context) returns (r: Request)
    ensures fresh(r)
    ensures r.head == request.head && r.context == ctx
  {
    r := new Request(request.head, ctx);
  }

  /** A handle on one private context key. */
  class AppContext {
    const token: ContextToken

    constructor (token: ContextToken)
      ensures this.token == token
    {
      this.token := token;
    }

    /** GetContext: the value stored under this handle's key, nil when none is. */
    function GetContext(request: Request): (v: Val)
      ensures request.context == Background ==> v == VNil
    {
      Value(request.context, token)
    }

    /** SetContext: a copy of the request whose context binds this handle's
        key to `value`; the request passed in is left as it was. */
    method SetContext(request: Request, value: Val) returns (r: Request)
      ensures fresh(r) && r.head == request.head
      ensures r.context == WithValue(request.context, token, value)
      ensures GetContext(r) == value
      ensures forall other: ContextToken :: other != token ==> Value(r.context, other) == Value(request.context, other)
    {
      r := CopyWithContext(request, WithValue(request.context, token, value));
    }

    /** WithContext: SetContext when nothing (or an untyped nil) is stored
        under this handle's key yet; otherwise the very same request.  A
        typed nil pointer counts as a stored value. */
    method WithContext(request: Request, value: Val) returns (r: Request)
      ensures GetContext(request) == VNil ==> fresh(r) && r.head == request.head
      ensures GetContext(request) != VNil ==> r == request
      ensures r.context == BindIfUnset(request.context, token, value)
    {
      var existing := GetContext(request);
      if existing == VNil {
        r := SetContext(request, value);
      } else {
        r := request;
      }
    }
  }

  /** NewContextToken */
  method NewContextToken(name: string) returns (t: ContextToken)
    ensures fresh(t) && t.String() == name
  {
    t := new ContextToken(name);
  }

  /** NewAppContext: a handle on a key of its own, distinct from every key
      made before. */
  method NewAppContext(name: string) returns (c: AppContext)
    ensures fresh(c) && fresh(c.token) && c.token.String() == name
  {
    var t := NewContextToken(name);
    c := new AppContext(t);
  }

  /** The context WithContext leaves: `key` bound to `value` when it read
      nil, the context unchanged otherwise. */
  function BindIfUnset(ctx: Context, key: ContextToken, value: Val): (r: Context)
    ensures r == ctx || r == WithValue(ctx, key, value)
    ensures value != VNil ==> Value(r, key) != VNil
    ensures Bound(r) == Bound(ctx) + {key} || Bound(r) == Bound(ctx)
  {
    if Value(ctx, key) == VNil then WithValue(ctx, key, value) else ctx
  }

  /** After WithContext the key reads the value stored before, or the
      offered value when none was; no other key changes. */
  lemma BindIfUnsetValue(ctx: Context, key: ContextToken, value: Val, other: ContextToken)
    ensures Value(BindIfUnset(ctx, key, value), key) == if Value(ctx, key) == VNil then value else Value(ctx, key)
    ensures other != key ==> Value(BindIfUnset(ctx, key, value), other) == Value(ctx, other)
  {
  }

  /** A second WithContext with a non-nil value in place changes nothing:
      the first value offered stays. */
  lemma BindIfUnsetKeepsFirst(ctx: Context, key: ContextToken, v: Val, w: Val)
    requires v != VNil
    ensures BindIfUnset(BindIfUnset(ctx, key, v), key, w) == BindIfUnset(ctx, key, v)
  {
  }

  /** Offering nil leaves the key reading nil, so a later WithContext still
      stores its value. */
  lemma BindIfUnsetNil(ctx: Context, key: ContextToken, w: Val)
    requires Value(ctx, key) == VNil
    ensures Value(BindIfUnset(BindIfUnset(ctx, key, VNil), key, w), key) == w
  {
  }
}
