/**
 * The data the client configurer works on: the parsed configuration metadata
 * (handler chains and handler declarations), the handlers found on a binding,
 * the outcome of instantiating a handler class, and the errors raised.
 */
module ConfigTypes {
  import opened Wrappers

  /** One handler declaration: the handler's class name and its init-params. */
  datatype HandlerDecl = HandlerDecl(handlerClass: string, initParams: seq<(string, string)>)

  /**
   * One handler-chain declaration. The port-name and service-name patterns are
   * read but never applied; protocolBindings is the space-separated filter.
   */
  datatype HandlerChainDecl = HandlerChainDecl(
    portNamePattern: Option<string>,
    serviceNamePattern: Option<string>,
    protocolBindings: Option<string>,
    handlers: seq<HandlerDecl>)

  /** A named client configuration with its pre- and post-handler chains (a null list is the empty list). */
  datatype ClientConfig = ClientConfig(
    configName: string,
    preHandlerChains: seq<HandlerChainDecl>,
    postHandlerChains: seq<HandlerChainDecl>)

  /** The root of a parsed configuration file. */
  datatype ConfigRoot = ConfigRoot(clientConfigs: seq<ClientConfig>)

  /**
   * A handler installed on a binding: either one the user put there, or a
   * wrapper this component inserted (a ConfigDelegateHandler, or a
   * LogicalConfigDelegateHandler when `logical`), which remembers the class it
   * wraps and whether it belongs to the pre group.
   */
  datatype Handler =
    | User(id: nat)
    | Cfg(handlerClass: string, isPre: bool, logical: bool)

  /**
   * What instantiating a handler class by name gives: a failure that throws
   * an exception (class not found, no usable constructor, security refusal),
   * an object that is not a handler, or a handler, logical or not.
   */
  datatype Instantiation = Fails | NotAHandler | Instance(logical: bool)

  /** The errors this component raises. */
  datatype ConfigError =
    | CouldNotReadConfiguration(configFile: string)
    | ConfigurationNotFound(configName: string)
    | NotJaxwsHandler(handlerClass: string)
    | OperationNotSupported(operation: string)
}
