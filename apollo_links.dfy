/** The Apollo client's transport split: each outgoing GraphQL operation goes
    either to the websocket link or to the HTTP link, decided from the main
    definition of its document; both links authenticate with the same
    Hasura admin secret. */
module ApolloLinks {
  import opened Wrappers

  /** The three GraphQL operation types, with their spelling in the AST. */
  datatype OperationType = Query | Mutation | Subscription

  function OperationTypeName(t: OperationType): (name: string)
    ensures name == "subscription" <==> t == Subscription
    ensures name != ""
  {
    match t
    case Query => "query"
    case Mutation => "mutation"
    case Subscription => "subscription"
  }

  /** A document's main definition: an operation, possibly named, or a
      fragment (the only two kinds the main-definition lookup returns). */
  datatype Definition =
    | OperationDefinition(operation: OperationType, operationName: Option<string>)
    | FragmentDefinition(fragmentName: string)

  /** The definition node's `kind` string. */
  function Kind(d: Definition): (kind: string)
    ensures kind == "OperationDefinition" <==> d.OperationDefinition?
  {
    match d
    case OperationDefinition(_, _) => "OperationDefinition"
    case FragmentDefinition(_) => "FragmentDefinition"
  }

  /** The node's `operation` field; a fragment has none (`undefined`). */
  function OperationField(d: Definition): (op: Option<string>)
    ensures op.Some? <==> d.OperationDefinition?
  {
    match d
    case OperationDefinition(t, _) => Some(OperationTypeName(t))
    case FragmentDefinition(_) => None
  }

  /** What the split test is handed: the operation's name, the main
      definition of its query document, and its variables. */
  datatype Operation = Operation(
    operationName: string,
    mainDefinition: Definition,
    variables: map<string, string>)

  datatype Link = WsLink | HttpLink

  /** The split test, comparing the kind and operation strings. */
  predicate IsSubscription(op: Operation)
  {
    var definition := op.mainDefinition;
    Kind(definition) == "OperationDefinition" && OperationField(definition) == Some("subscription")
  }

  /** `split(test, wsLink, httpLink)`: subscriptions go to the websocket
      link, every other operation to the HTTP link. */
  function Route(op: Operation): (link: Link)
    ensures link == WsLink <==>
              op.mainDefinition.OperationDefinition? && op.mainDefinition.operation == Subscription
    ensures link == HttpLink <==>
              op.mainDefinition.FragmentDefinition? || op.mainDefinition.operation != Subscription
  {
    if IsSubscription(op) then WsLink else HttpLink
  }

  /** Queries and mutations always go over HTTP. */
  lemma QueriesAndMutationsUseHttp(op: Operation)
    requires op.mainDefinition.OperationDefinition?
    requires op.mainDefinition.operation in {Query, Mutation}
    ensures Route(op) == HttpLink
  {
  }

  /** A main definition that is not an operation definition goes over HTTP. */
  lemma FragmentsUseHttp(op: Operation)
    requires !op.mainDefinition.OperationDefinition?
    ensures Route(op) == HttpLink
  {
  }

  /** The choice depends only on the main definition's kind and operation
      fields: not on names, variables or anything else in the operation. */
  lemma RouteDependsOnlyOnKindAndOperation(a: Operation, b: Operation)
    requires Kind(a.mainDefinition) == Kind(b.mainDefinition)
    requires OperationField(a.mainDefinition) == OperationField(b.mainDefinition)
    ensures Route(a) == Route(b)
  {
  }

  /** A link's endpoint and the headers it authenticates with (for the
      websocket link, the headers of its connection parameters). */
  datatype LinkConfig = LinkConfig(url: string, headers: map<string, string>)

  const AdminSecretHeader: string := "x-hasura-admin-secret"
  const AdminSecret: string := "myadminsecretkey"

  const HttpLinkConfig: LinkConfig :=
    LinkConfig("http://localhost:8080/v1/graphql", map[AdminSecretHeader := AdminSecret])

  const WsLinkConfig: LinkConfig :=
    LinkConfig("ws://localhost:8080/v1/graphql", map[AdminSecretHeader := AdminSecret])

  /** The link an operation is sent over. */
  function ConfigOf(link: Link): LinkConfig
  {
    match link
    case WsLink => WsLinkConfig
    case HttpLink => HttpLinkConfig
  }

  /** Whichever link an operation is routed to, it carries the same admin
      secret. */
  lemma SameAdminSecretOnEitherLink(a: Operation, b: Operation)
    ensures AdminSecretHeader in ConfigOf(Route(a)).headers
    ensures AdminSecretHeader in ConfigOf(Route(b)).headers
    ensures ConfigOf(Route(a)).headers[AdminSecretHeader] == ConfigOf(Route(b)).headers[AdminSecretHeader]
  {
  }
}
