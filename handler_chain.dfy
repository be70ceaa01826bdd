/**
 * What installing a configuration does to a binding's handler chain, stated
 * as functions: stripping the handlers a previous run inserted, selecting the
 * handler declarations whose chain applies to the binding, converting them to
 * tagged wrappers, and splicing pre + user + post. The functions recurse on
 * the last element, the order in which the installer's loops append.
 */
module HandlerChain {
  import opened Wrappers
  import opened ConfigTypes
  import opened ProtocolBinding

  /** The handlers of a chain that this component did not insert, in their original order. */
  function NonConfig(chain: seq<Handler>): (user: seq<Handler>)
    ensures |user| <= |chain|
    ensures forall h :: h in user <==> h in chain && h.User?
  {
    if chain == [] then []
    else
      var last := chain[|chain| - 1];
      NonConfig(chain[..|chain| - 1]) + (if last.Cfg? then [] else [last])
  }

  /** The handler declarations of the chains whose protocol-binding filter admits `token`, chains in order, handlers within a chain in order. */
  function Selected(chains: seq<HandlerChainDecl>, token: Option<string>): (selected: seq<HandlerDecl>)
    ensures forall d :: d in selected ==> exists k :: 0 <= k < |chains| && Contributes(token, chains[k], d)
  {
    if chains == [] then []
    else
      var init, last := chains[..|chains| - 1], chains[|chains| - 1];
      assert forall k :: 0 <= k < |init| ==> init[k] == chains[k];
      Selected(init, token) + (if Matches(token, last.protocolBindings) then last.handlers else [])
  }

  /** Chain c applies to the binding's token and declares d. */
  predicate Contributes(token: Option<string>, c: HandlerChainDecl, d: HandlerDecl)
  {
    Matches(token, c.protocolBindings) && d in c.handlers
  }

  /** Instantiates the declared handlers in order and wraps each; a class that fails to instantiate is skipped, one that is not a handler aborts. */
  function ConvertDecls(decls: seq<HandlerDecl>, newInstance: string -> Instantiation, isPre: bool)
    : (r: Result<seq<Handler>, ConfigError>)
    ensures r.Ok? ==> |r.value| <= |decls|
    ensures r.Ok? ==> forall h :: h in r.value ==> h.Cfg? && h.isPre == isPre
    ensures r.Err? ==> r.error.NotJaxwsHandler?
  {
    if decls == [] then Ok([])
    else
      match ConvertDecls(decls[..|decls| - 1], newInstance, isPre)
      case Err(e) => Err(e)
      case Ok(hs) =>
        var d := decls[|decls| - 1];
        match newInstance(d.handlerClass)
        case Fails => Ok(hs)
        case NotAHandler => Err(NotJaxwsHandler(d.handlerClass))
        case Instance(logical) => Ok(hs + [Cfg(d.handlerClass, isPre, logical)])
  }

  /** convertToHandlers: the wrappers for the applicable chains' handlers. */
  function Convert(chains: seq<HandlerChainDecl>, token: Option<string>,
                   newInstance: string -> Instantiation, isPre: bool): (r: Result<seq<Handler>, ConfigError>)
    ensures r.Ok? ==> forall h :: h in r.value ==> h.Cfg? && h.isPre == isPre
    ensures r.Err? ==> r.error.NotJaxwsHandler?
  {
    ConvertDecls(Selected(chains, token), newInstance, isPre)
  }

  /** The chain a binding carries after the configuration is installed, or the error that stops the installation. */
  function Install(chain: seq<Handler>, config: ClientConfig, bindingId: string,
                   newInstance: string -> Instantiation): (r: Result<seq<Handler>, ConfigError>)
    ensures r.Ok? ==> forall h :: h in r.value ==> h.Cfg? || h in chain
    ensures r.Ok? ==> NonConfig(r.value) == NonConfig(chain)
    ensures r.Err? ==> r.error.NotJaxwsHandler?
  {
    var token := ProtocolBindingToken(bindingId);
    match Convert(config.preHandlerChains, token, newInstance, true)
    case Err(e) => Err(e)
    case Ok(pre) =>
      match Convert(config.postHandlerChains, token, newInstance, false)
      case Err(e) => Err(e)
      case Ok(post) =>
        NonConfigBetweenWrappers(pre, chain, post);
        Ok(pre + NonConfig(chain) + post)
  }

  /** Sequencing of two conversions: the first error wins, otherwise the results are concatenated. */
  function Then(a: Result<seq<Handler>, ConfigError>, b: Result<seq<Handler>, ConfigError>)
    : Result<seq<Handler>, ConfigError>
  {
    match a
    case Err(e) => Err(e)
    case Ok(x) => match b
      case Err(e) => Err(e)
      case Ok(y) => Ok(x + y)
  }

  // ---- Stripping ----

  /** Stripping distributes over concatenation: the relative order of the user handlers is kept. */
  lemma {:induction false} NonConfigAppend(a: seq<Handler>, b: seq<Handler>)
    ensures NonConfig(a + b) == NonConfig(a) + NonConfig(b)
    decreases |b|
  {
    if b != [] {
      var b' := b[..|b| - 1];
      assert (a + b)[..|a + b| - 1] == a + b';
      NonConfigAppend(a, b');
    } else {
      assert a + b == a;
    }
  }

  /** A chain of user handlers only is left as it is. */
  lemma {:induction false} NonConfigOfUsers(chain: seq<Handler>)
    requires forall h :: h in chain ==> h.User?
    ensures NonConfig(chain) == chain
    decreases |chain|
  {
    if chain != [] {
      assert chain[|chain| - 1] in chain;
      NonConfigOfUsers(chain[..|chain| - 1]);
      assert chain[..|chain| - 1] + [chain[|chain| - 1]] == chain;
    }
  }

  /** A chain of inserted wrappers only is stripped entirely. */
  lemma {:induction false} NonConfigOfConfig(chain: seq<Handler>)
    requires forall h :: h in chain ==> h.Cfg?
    ensures NonConfig(chain) == []
    decreases |chain|
  {
    if chain != [] {
      NonConfigOfConfig(chain[..|chain| - 1]);
    }
  }

  /** Stripping twice is stripping once. */
  lemma NonConfigIdempotent(chain: seq<Handler>)
    ensures NonConfig(NonConfig(chain)) == NonConfig(chain)
  {
    NonConfigOfUsers(NonConfig(chain));
  }

  /** Stripping a stripped chain placed between inserted wrappers gives back the stripped chain. */
  lemma NonConfigBetweenWrappers(pre: seq<Handler>, chain: seq<Handler>, post: seq<Handler>)
    requires forall h :: h in pre ==> h.Cfg?
    requires forall h :: h in post ==> h.Cfg?
    ensures NonConfig(pre + NonConfig(chain) + post) == NonConfig(chain)
  {
    NonConfigAppend(pre + NonConfig(chain), post);
    NonConfigAppend(pre, NonConfig(chain));
    NonConfigOfConfig(pre);
    NonConfigOfConfig(post);
    NonConfigIdempotent(chain);
  }

  // ---- Selection ----

  /** Selection distributes over concatenation of chain lists. */
  lemma {:induction false} SelectedAppend(a: seq<HandlerChainDecl>, b: seq<HandlerChainDecl>, token: Option<string>)
    ensures Selected(a + b, token) == Selected(a, token) + Selected(b, token)
    decreases |b|
  {
    if b != [] {
      var b' := b[..|b| - 1];
      assert (a + b)[..|a + b| - 1] == a + b';
      SelectedAppend(a, b', token);
    } else {
      assert a + b == a;
    }
  }

  /** A declaration is selected exactly when it belongs to a chain whose filter admits the token. */
  lemma {:induction false} SelectedMembership(chains: seq<HandlerChainDecl>, token: Option<string>, d: HandlerDecl)
    ensures d in Selected(chains, token) <==> exists k :: 0 <= k < |chains| && Contributes(token, chains[k], d)
    decreases |chains|
  {
    if chains != [] {
      var init, last := chains[..|chains| - 1], chains[|chains| - 1];
      SelectedMembership(init, token, d);
      assert d in Selected(chains, token) <==> d in Selected(init, token) || Contributes(token, last, d);
      if exists k :: 0 <= k < |init| && Contributes(token, init[k], d) {
        var k :| 0 <= k < |init| && Contributes(token, init[k], d);
        assert chains[k] == init[k];
      }
      if exists k :: 0 <= k < |chains| && Contributes(token, chains[k], d) {
        var k :| 0 <= k < |chains| && Contributes(token, chains[k], d);
        if k < |init| {
          assert init[k] == chains[k];
        }
      }
    }
  }

  /** Port-name and service-name patterns never change which declarations are selected. */
  lemma {:induction false} PatternsIgnored(chains: seq<HandlerChainDecl>, other: seq<HandlerChainDecl>, token: Option<string>)
    requires |chains| == |other|
    requires forall k :: 0 <= k < |chains| ==>
               chains[k].protocolBindings == other[k].protocolBindings && chains[k].handlers == other[k].handlers
    ensures Selected(chains, token) == Selected(other, token)
    decreases |chains|
  {
    if chains != [] {
      PatternsIgnored(chains[..|chains| - 1], other[..|other| - 1], token);
    }
  }

  // ---- Conversion ----

  /** Conversion of a concatenation is the conversion of the parts in sequence. */
  lemma {:induction false} ConvertDeclsAppend(a: seq<HandlerDecl>, b: seq<HandlerDecl>,
                                              newInstance: string -> Instantiation, isPre: bool)
    ensures ConvertDecls(a + b, newInstance, isPre) ==
            Then(ConvertDecls(a, newInstance, isPre), ConvertDecls(b, newInstance, isPre))
    decreases |b|
  {
    if b == [] {
      assert a + b == a;
      match ConvertDecls(a, newInstance, isPre)
      case Err(_) =>
      case Ok(x) => assert x + [] == x;
    } else {
      var b' := b[..|b| - 1];
      assert (a + b)[..|a + b| - 1] == a + b';
      assert (a + b)[|a + b| - 1] == b[|b| - 1];
      ConvertDeclsAppend(a, b', newInstance, isPre);
      match ConvertDecls(a, newInstance, isPre)
      case Err(_) =>
      case Ok(x) =>
        match ConvertDecls(b', newInstance, isPre)
        case Err(_) =>
        case Ok(y) =>
          var d := b[|b| - 1];
          if newInstance(d.handlerClass).Instance? {
            var w := Cfg(d.handlerClass, isPre, newInstance(d.handlerClass).logical);
            assert x + (y + [w]) == (x + y) + [w];
          }
    }
  }

  /** Converting one more declaration of a chain after a successful prefix. */
  lemma ConvertDeclsStep(done: seq<HandlerDecl>, decls: seq<HandlerDecl>, j: nat, hs: seq<Handler>,
                         newInstance: string -> Instantiation, isPre: bool)
    requires j < |decls|
    requires ConvertDecls(done + decls[..j], newInstance, isPre) == Ok(hs)
    ensures ConvertDecls(done + decls[..j + 1], newInstance, isPre) ==
            match newInstance(decls[j].handlerClass)
            case Fails => Ok(hs)
            case NotAHandler => Err(NotJaxwsHandler(decls[j].handlerClass))
            case Instance(logical) => Ok(hs + [Cfg(decls[j].handlerClass, isPre, logical)])
  {
    assert (done + decls[..j + 1])[..|done| + j] == done + decls[..j];
    assert (done + decls[..j + 1])[|done| + j] == decls[j];
  }

  /** Selecting from one more chain. */
  lemma SelectedSnoc(chains: seq<HandlerChainDecl>, i: nat, token: Option<string>)
    requires i < |chains|
    ensures Selected(chains[..i + 1], token) ==
            Selected(chains[..i], token) + (if Matches(token, chains[i].protocolBindings) then chains[i].handlers else [])
  {
    assert chains[..i + 1][..i] == chains[..i];
    assert Selected(chains[..i], token) + [] == Selected(chains[..i], token);
  }

  /** Once the chains converted so far include a handler that is not a handler, the whole conversion fails with that error. */
  lemma ConvertAbortsAt(chains: seq<HandlerChainDecl>, i: nat, token: Option<string>,
                        newInstance: string -> Instantiation, isPre: bool)
    requires i < |chains|
    requires ConvertDecls(Selected(chains[..i + 1], token), newInstance, isPre).Err?
    ensures Convert(chains, token, newInstance, isPre) ==
            ConvertDecls(Selected(chains[..i + 1], token), newInstance, isPre)
  {
    SelectedAppend(chains[..i + 1], chains[i + 1..], token);
    assert chains[..i + 1] + chains[i + 1..] == chains;
    ConvertDeclsAppend(Selected(chains[..i + 1], token), Selected(chains[i + 1..], token), newInstance, isPre);
  }

  /** A handler whose class fails to instantiate is omitted, and nothing else changes. */
  lemma SkipFailed(a: seq<HandlerDecl>, d: HandlerDecl, b: seq<HandlerDecl>,
                   newInstance: string -> Instantiation, isPre: bool)
    requires newInstance(d.handlerClass) == Fails
    ensures ConvertDecls(a + [d] + b, newInstance, isPre) == ConvertDecls(a + b, newInstance, isPre)
  {
    ConvertDeclsAppend(a + [d], b, newInstance, isPre);
    ConvertDeclsAppend(a, [d], newInstance, isPre);
    ConvertDeclsAppend(a, b, newInstance, isPre);
    assert [d][..0] == [];
  }

  /** Conversion fails exactly when some selected class instantiates to something that is not a handler. */
  lemma {:induction false} ConvertDeclsOkIff(decls: seq<HandlerDecl>, newInstance: string -> Instantiation, isPre: bool)
    ensures ConvertDecls(decls, newInstance, isPre).Ok? <==>
            forall k :: 0 <= k < |decls| ==> newInstance(decls[k].handlerClass) != NotAHandler
    decreases |decls|
  {
    if decls != [] {
      var init := decls[..|decls| - 1];
      ConvertDeclsOkIff(init, newInstance, isPre);
      assert forall k :: 0 <= k < |init| ==> init[k] == decls[k];
    }
  }

  /** The error names the first declared class that is not a handler. */
  lemma {:induction false} ConvertDeclsErrNamesFirst(decls: seq<HandlerDecl>, newInstance: string -> Instantiation, isPre: bool)
    requires ConvertDecls(decls, newInstance, isPre).Err?
    ensures exists k :: 0 <= k < |decls| && newInstance(decls[k].handlerClass) == NotAHandler &&
              ConvertDecls(decls, newInstance, isPre).error == NotJaxwsHandler(decls[k].handlerClass) &&
              forall j :: 0 <= j < k ==> newInstance(decls[j].handlerClass) != NotAHandler
    decreases |decls|
  {
    var init := decls[..|decls| - 1];
    if ConvertDecls(init, newInstance, isPre).Err? {
      ConvertDeclsErrNamesFirst(init, newInstance, isPre);
      var k :| 0 <= k < |init| && newInstance(init[k].handlerClass) == NotAHandler &&
               ConvertDecls(init, newInstance, isPre).error == NotJaxwsHandler(init[k].handlerClass) &&
               forall j :: 0 <= j < k ==> newInstance(init[j].handlerClass) != NotAHandler;
      assert forall j :: 0 <= j <= k ==> init[j] == decls[j];
    } else {
      ConvertDeclsOkIff(init, newInstance, isPre);
      assert forall j :: 0 <= j < |init| ==> init[j] == decls[j];
    }
  }

  /** When every declared class yields a handler, every declaration appears, wrapped, at its own position. */
  lemma {:induction false} ConvertDeclsAllLoaded(decls: seq<HandlerDecl>, newInstance: string -> Instantiation, isPre: bool)
    requires forall k :: 0 <= k < |decls| ==> newInstance(decls[k].handlerClass).Instance?
    ensures ConvertDecls(decls, newInstance, isPre).Ok?
    ensures |ConvertDecls(decls, newInstance, isPre).value| == |decls|
    ensures forall k :: 0 <= k < |decls| ==>
              ConvertDecls(decls, newInstance, isPre).value[k] ==
              Cfg(decls[k].handlerClass, isPre, newInstance(decls[k].handlerClass).logical)
    decreases |decls|
  {
    if decls != [] {
      var init := decls[..|decls| - 1];
      assert forall k :: 0 <= k < |init| ==> init[k] == decls[k];
      ConvertDeclsAllLoaded(init, newInstance, isPre);
    }
  }

  // ---- Installation ----

  /** After installation the chain is the pre wrappers, then the user handlers in their old order, then the post wrappers. */
  lemma InstallLayout(chain: seq<Handler>, config: ClientConfig, bindingId: string, newInstance: string -> Instantiation)
    requires Install(chain, config, bindingId, newInstance).Ok?
    ensures var token := ProtocolBindingToken(bindingId);
            var pre := Convert(config.preHandlerChains, token, newInstance, true);
            var post := Convert(config.postHandlerChains, token, newInstance, false);
            pre.Ok? && post.Ok? &&
            Install(chain, config, bindingId, newInstance).value == pre.value + NonConfig(chain) + post.value &&
            (forall h :: h in pre.value ==> h.Cfg? && h.isPre) &&
            (forall h :: h in post.value ==> h.Cfg? && !h.isPre)
  {
  }

  /** Installing the same configuration again gives the same chain: inserted handlers do not accumulate. */
  lemma InstallIdempotent(chain: seq<Handler>, config: ClientConfig, bindingId: string,
                          newInstance: string -> Instantiation)
    requires Install(chain, config, bindingId, newInstance).Ok?
    ensures var once := Install(chain, config, bindingId, newInstance).value;
            Install(once, config, bindingId, newInstance) == Install(chain, config, bindingId, newInstance)
  {
  }

  /** Whether installation fails, and with which error, does not depend on the chain on the binding. */
  lemma InstallErrorIgnoresChain(chain: seq<Handler>, other: seq<Handler>, config: ClientConfig, bindingId: string,
                                 newInstance: string -> Instantiation)
    requires Install(chain, config, bindingId, newInstance).Err?
    ensures Install(other, config, bindingId, newInstance) == Install(chain, config, bindingId, newInstance)
  {
  }

  /** Instantiation in the example below: P1 and Q1 are plain (non-logical) handlers, every other class fails to load. */
  function ExampleInstantiation(handlerClass: string): Instantiation
  {
    if handlerClass == "P1" || handlerClass == "Q1" then Instance(false) else Fails
  }

  /** Installation assembles the two successful conversions around the stripped chain. */
  lemma InstallOfConversions(chain: seq<Handler>, config: ClientConfig, bindingId: string,
                             newInstance: string -> Instantiation, pre: seq<Handler>, post: seq<Handler>)
    requires Convert(config.preHandlerChains, ProtocolBindingToken(bindingId), newInstance, true) == Ok(pre)
    requires Convert(config.postHandlerChains, ProtocolBindingToken(bindingId), newInstance, false) == Ok(post)
    ensures Install(chain, config, bindingId, newInstance) == Ok(pre + NonConfig(chain) + post)
  {
  }

  /** A single unfiltered chain with one loadable, non-logical handler converts to one wrapper. */
  lemma ConvertSingleHandler(name: string, token: Option<string>, newInstance: string -> Instantiation, isPre: bool)
    requires newInstance(name) == Instance(false)
    ensures Convert([HandlerChainDecl(None, None, None, [HandlerDecl(name, [])])], token, newInstance, isPre) ==
            Ok([Cfg(name, isPre, false)])
  {
    var d := HandlerDecl(name, []);
    var chains := [HandlerChainDecl(None, None, None, [d])];
    SelectedSnoc(chains, 0, token);
    assert chains[..1] == chains && chains[..0] == [];
    assert Selected(chains, token) == [d];
    assert [] + [d][..0] == [] && [] + [d][..1] == [d];
    ConvertDeclsStep([], [d], 0, [], newInstance, isPre);
    assert [] + [Cfg(name, isPre, false)] == [Cfg(name, isPre, false)];
  }

  /** With user handlers [U1, U2], an unfiltered pre chain [P1] and an unfiltered post chain [Q1], the binding ends up with [P1, U1, U2, Q1]. */
  lemma InstallExample()
    ensures Install([User(1), User(2)],
                    ClientConfig("cfg", [HandlerChainDecl(None, None, None, [HandlerDecl("P1", [])])],
                                        [HandlerChainDecl(None, None, None, [HandlerDecl("Q1", [])])]),
                    Soap11HttpBinding, ExampleInstantiation) ==
            Ok([Cfg("P1", true, false), User(1), User(2), Cfg("Q1", false, false)])
  {
    var chain := [User(1), User(2)];
    var config := ClientConfig("cfg", [HandlerChainDecl(None, None, None, [HandlerDecl("P1", [])])],
                                      [HandlerChainDecl(None, None, None, [HandlerDecl("Q1", [])])]);
    var token := ProtocolBindingToken(Soap11HttpBinding);
    var pre, post := [Cfg("P1", true, false)], [Cfg("Q1", false, false)];
    assert ExampleInstantiation("P1") == Instance(false);
    assert ExampleInstantiation("Q1") == Instance(false);
    ConvertSingleHandler("P1", token, ExampleInstantiation, true);
    ConvertSingleHandler("Q1", token, ExampleInstantiation, false);
    InstallOfConversions(chain, config, Soap11HttpBinding, ExampleInstantiation, pre, post);
    NonConfigOfUsers(chain);
    assert pre + chain + post == [Cfg("P1", true, false), User(1), User(2), Cfg("Q1", false, false)];
  }
}
