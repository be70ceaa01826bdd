/**
 * The client configurer: reads a named client configuration and installs its
 * pre- and post-handler chains around the handlers already on a binding.
 * Each method is proved against the functions of HandlerChain.
 */
module ConfigHelper {
  import opened Wrappers
  import opened ConfigTypes
  import opened ProtocolBinding
  import opened HandlerChain

  /** A live client binding: its binding identifier and the handler chain it carries. */
  class Binding {
    const bindingId: string
    var handlerChain: seq<Handler>

    constructor (bindingId: string, handlerChain: seq<Handler>)
      ensures this.bindingId == bindingId && this.handlerChain == handlerChain
    {
      this.bindingId := bindingId;
      this.handlerChain := handlerChain;
    }

    /** Replaces the binding's handler chain. */
    method SetHandlerChain(chain: seq<Handler>)
      modifies this
      ensures handlerChain == chain
    {
      handlerChain := chain;
    }
  }

  /** A configuration file: its name and what reading and parsing it gave (nothing when the read or the parse failed). */
  datatype ConfigFile = ConfigFile(path: string, parsed: Option<ConfigRoot>)

  /** The client configuration a parsed file returns for a name: the first one so named. */
  function FirstByName(configs: seq<ClientConfig>, configName: string): (found: Option<ClientConfig>)
    ensures found.None? <==> forall k :: 0 <= k < |configs| ==> configs[k].configName != configName
    ensures found.Some? ==> exists k :: 0 <= k < |configs| && configs[k] == found.value &&
                              found.value.configName == configName &&
                              forall j :: 0 <= j < k ==> configs[j].configName != configName
  {
    if configs == [] then None
    else if configs[0].configName == configName then Some(configs[0])
    else
      var rest := FirstByName(configs[1..], configName);
      assert forall k :: 0 < k < |configs| ==> configs[k] == configs[1..][k - 1];
      rest
  }

  /**
   * The configuration readConfig selects, or the error it raises, as one
   * value: ReadConfig's explicit postconditions say what it is case by case,
   * and this function lets SetConfigHandlers state its contract in one term.
   */
  function LookupConfig(configFile: Option<ConfigFile>, configName: string, serverConfigs: Option<seq<ClientConfig>>)
    : (r: Result<ClientConfig, ConfigError>)
    ensures configFile.Some? && configFile.value.parsed.None? ==> r == Err(CouldNotReadConfiguration(configFile.value.path))
    ensures r.Ok? ==> r.value.configName == configName
    ensures r.Err? && !(configFile.Some? && configFile.value.parsed.None?) ==> r.error == ConfigurationNotFound(configName)
    ensures configFile.None? && serverConfigs.None? ==> r == Err(ConfigurationNotFound(configName))
  {
    var found :=
      if configFile.Some? then
        if configFile.value.parsed.None? then None else FirstByName(configFile.value.parsed.value.clientConfigs, configName)
      else if serverConfigs.Some? then FirstByName(serverConfigs.value, configName)
      else None;
    if configFile.Some? && configFile.value.parsed.None? then Err(CouldNotReadConfiguration(configFile.value.path))
    else if found.Some? then Ok(found.value)
    else Err(ConfigurationNotFound(configName))
  }

  /** getNonConfigHandlers: the handlers of the chain that no earlier run inserted. */
  method GetNonConfigHandlers(handlerChain: seq<Handler>) returns (list: seq<Handler>)
    ensures list == NonConfig(handlerChain)
  {
    list := [];
    var i := 0;
    while i < |handlerChain|
      invariant 0 <= i <= |handlerChain|
      invariant list == NonConfig(handlerChain[..i])
    {
      var h := handlerChain[i];
      assert handlerChain[..i + 1][..i] == handlerChain[..i];
      if !h.Cfg? {
        list := list + [h];
      }
      i := i + 1;
    }
    assert handlerChain[..|handlerChain|] == handlerChain;
  }

  /**
   * The inner loop of convertToHandlers over one applicable chain: instantiates
   * each declared handler in order and appends its wrapper to `handlers`; a
   * class that fails to instantiate is skipped, one that is not a handler
   * ends the conversion with an error.
   */
  method AppendChainHandlers(ghost done: seq<HandlerDecl>, decls: seq<HandlerDecl>, handlers: seq<Handler>,
                             newInstance: string -> Instantiation, isPre: bool)
    returns (r: Result<seq<Handler>, ConfigError>)
    requires ConvertDecls(done, newInstance, isPre) == Ok(handlers)
    ensures r == ConvertDecls(done + decls, newInstance, isPre)
  {
    var acc := handlers;
    var j := 0;
    assert done + decls[..0] == done;
    while j < |decls|
      invariant 0 <= j <= |decls|
      invariant ConvertDecls(done + decls[..j], newInstance, isPre) == Ok(acc)
    {
      var d := decls[j];
      ConvertDeclsStep(done, decls, j, acc, newInstance, isPre);
      var h := newInstance(d.handlerClass);
      if h.NotAHandler? {
        assert done + decls == (done + decls[..j + 1]) + decls[j + 1..];
        ConvertDeclsAppend(done + decls[..j + 1], decls[j + 1..], newInstance, isPre);
        return Err(NotJaxwsHandler(d.handlerClass));
      } else if h.Instance? {
        acc := acc + [Cfg(d.handlerClass, isPre, h.logical)];
      }
      j := j + 1;
    }
    assert decls[..|decls|] == decls;
    return Ok(acc);
  }

  /** convertToHandlers: wraps the handlers of the chains that apply to the binding, tagged pre or post. */
  method ConvertToHandlers(handlerChains: seq<HandlerChainDecl>, bindingId: string,
                           newInstance: string -> Instantiation, isPre: bool)
    returns (r: Result<seq<Handler>, ConfigError>)
    ensures r == Convert(handlerChains, ProtocolBindingToken(bindingId), newInstance, isPre)
  {
    var handlers: seq<Handler> := [];
    if |handlerChains| == 0 {
      return Ok(handlers);
    }
    var protocolBinding := ProtocolBindingToken(bindingId);
    var i := 0;
    while i < |handlerChains|
      invariant 0 <= i <= |handlerChains|
      invariant ConvertDecls(Selected(handlerChains[..i], protocolBinding), newInstance, isPre) == Ok(handlers)
    {
      var handlerChain := handlerChains[i];
      var matched := MatchProtocolBinding(protocolBinding, handlerChain.protocolBindings);
      SelectedSnoc(handlerChains, i, protocolBinding);
      if matched {
        var res := AppendChainHandlers(Selected(handlerChains[..i], protocolBinding), handlerChain.handlers,
                                       handlers, newInstance, isPre);
        if res.Err? {
          ConvertAbortsAt(handlerChains, i, protocolBinding, newInstance, isPre);
          return res;
        }
        handlers := res.value;
      } else {
        assert Selected(handlerChains[..i + 1], protocolBinding) == Selected(handlerChains[..i], protocolBinding) + [];
        assert Selected(handlerChains[..i], protocolBinding) + [] == Selected(handlerChains[..i], protocolBinding);
      }
      i := i + 1;
    }
    assert handlerChains[..|handlerChains|] == handlerChains;
    return Ok(handlers);
  }

  /**
   * setupConfigHandlers: with no configuration nothing happens; otherwise the
   * binding gets the pre wrappers, its own user handlers and the post
   * wrappers, or, when a declared class is not a handler, keeps its chain and
   * the error is raised.
   */
  method SetupConfigHandlers(binding: Binding, config: Option<ClientConfig>, newInstance: string -> Instantiation)
    returns (outcome: Outcome<ConfigError>)
    modifies binding
    ensures config.None? ==> outcome == Pass && unchanged(binding)
    ensures config.Some? ==>
              match Install(old(binding.handlerChain), config.value, binding.bindingId, newInstance)
              case Ok(chain) => outcome == Pass && binding.handlerChain == chain
              case Err(e) => outcome == Fail(e) && unchanged(binding)
  {
    if config.Some? {
      var userHandlers := GetNonConfigHandlers(binding.handlerChain);
      var pre := ConvertToHandlers(config.value.preHandlerChains, binding.bindingId, newInstance, true);
      if pre.Err? {
        return Fail(pre.error);
      }
      var post := ConvertToHandlers(config.value.postHandlerChains, binding.bindingId, newInstance, false);
      if post.Err? {
        return Fail(post.error);
      }
      var handlers := pre.value + userHandlers + post.value;
      binding.SetHandlerChain(handlers);
    }
    return Pass;
  }

  /**
   * readConfig: with a configuration file, the configuration of that name in
   * the parsed file; with none, the first configuration of that name in the
   * server registry (absent outside a managed environment).
   */
  method ReadConfig(configFile: Option<ConfigFile>, configName: string, serverConfigs: Option<seq<ClientConfig>>)
    returns (r: Result<ClientConfig, ConfigError>)
    ensures configFile.Some? && configFile.value.parsed.None? ==>
              r == Err(CouldNotReadConfiguration(configFile.value.path))
    ensures configFile.Some? && configFile.value.parsed.Some? ==>
              match FirstByName(configFile.value.parsed.value.clientConfigs, configName)
              case Some(c) => r == Ok(c)
              case None => r == Err(ConfigurationNotFound(configName))
    ensures configFile.None? && serverConfigs.None? ==> r == Err(ConfigurationNotFound(configName))
    ensures configFile.None? && serverConfigs.Some? ==>
              var configs := serverConfigs.value;
              (r.Ok? <==> exists k :: 0 <= k < |configs| && configs[k].configName == configName) &&
              (r.Ok? ==> exists k :: 0 <= k < |configs| && configs[k] == r.value && r.value.configName == configName &&
                           forall j :: 0 <= j < k ==> configs[j].configName != configName) &&
              (r.Err? ==> r.error == ConfigurationNotFound(configName))
    ensures r == LookupConfig(configFile, configName, serverConfigs)
  {
    if configFile.Some? {
      if configFile.value.parsed.None? {
        return Err(CouldNotReadConfiguration(configFile.value.path));
      }
      var cc := FirstByName(configFile.value.parsed.value.clientConfigs, configName);
      if cc.Some? {
        return Ok(cc.value);
      }
    } else if serverConfigs.Some? {
      var configs := serverConfigs.value;
      var i := 0;
      while i < |configs|
        invariant 0 <= i <= |configs|
        invariant forall j :: 0 <= j < i ==> configs[j].configName != configName
      {
        if configs[i].configName == configName {
          assert FirstByName(configs, configName) == Some(configs[i]) by {
            var k :| 0 <= k < |configs| && configs[k] == FirstByName(configs, configName).value &&
                     configs[k].configName == configName &&
                     forall j :: 0 <= j < k ==> configs[j].configName != configName;
            assert k == i;
          }
          return Ok(configs[i]);
        }
        i := i + 1;
      }
    }
    return Err(ConfigurationNotFound(configName));
  }

  /** setConfigHandlers: reads the configuration, then installs it; a read error leaves the binding as it was. */
  method SetConfigHandlers(binding: Binding, configFile: Option<ConfigFile>, configName: string,
                           serverConfigs: Option<seq<ClientConfig>>, newInstance: string -> Instantiation)
    returns (outcome: Outcome<ConfigError>)
    modifies binding
    ensures match LookupConfig(configFile, configName, serverConfigs)
            case Err(e) => outcome == Fail(e) && unchanged(binding)
            case Ok(c) =>
              match Install(old(binding.handlerChain), c, binding.bindingId, newInstance)
              case Ok(chain) => outcome == Pass && binding.handlerChain == chain
              case Err(e) => outcome == Fail(e) && unchanged(binding)
  {
    var config := ReadConfig(configFile, configName, serverConfigs);
    if config.Err? {
      return Fail(config.error);
    }
    outcome := SetupConfigHandlers(binding, Some(config.value), newInstance);
  }

  /** setConfigProperties: not supported by this configurer, whatever the arguments. */
  function SetConfigProperties(configFile: Option<string>, configName: string): (outcome: Outcome<ConfigError>)
    ensures outcome.Fail? && outcome.error.OperationNotSupported?
  {
    Fail(OperationNotSupported("setConfigProperties"))
  }
}
