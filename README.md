# Client handler-chain configurer, modelled in Dafny

This project models the client configurer of JBossWS Common
(`ConfigHelper`). The configurer selects a named client configuration,
either from a given configuration file or from the server's registry. It
then installs the configuration's pre- and post-handler chains on a JAX-WS
binding, around the handlers the user already put there.

Installation does four things:

1. It strips every handler that an earlier installation inserted.
2. It selects the handler declarations of the chains whose protocol-binding filter admits the binding.
3. It instantiates each selected handler class and wraps the instance in a tagged delegate that records "pre" or "post".
4. It installs `pre ++ user handlers ++ post` on the binding.

A class whose loading or instantiation throws an exception is skipped. An
object that is not a handler aborts the installation and leaves the binding
untouched.

Files and modules:

- `wrappers.dfy` (`Wrappers`): `Option` (Java's null), `Result` and `Outcome` (thrown errors).
- `config_types.dfy` (`ConfigTypes`): the configuration metadata (`HandlerDecl`, `HandlerChainDecl`, `ClientConfig`, `ConfigRoot`). It also defines the handlers found on a binding (`Handler.User` and the inserted wrapper `Handler.Cfg`), the outcome of instantiating a class (`Instantiation`), and the errors (`ConfigError`).
- `protocol_binding.dfy` (`ProtocolBinding`): the five-entry table from binding identifier to token, the tokenizer that splits on spaces only, and the matcher. The tokenizer and the matcher come with lemmas that characterise them at the level of characters.
- `handler_chain.dfy` (`HandlerChain`): the specification functions `NonConfig`, `Selected`, `ConvertDecls`, `Convert` and `Install`, and the lemmas about them. These cover order, skipping, the first error, idempotence and the kept user handlers.
- `config_helper.dfy` (`ConfigHelper`): the `Binding` class, whose `handlerChain` field is replaced in place. It also holds the imperative methods of the configurer, each proved against the functions above, and `readConfig`.

Foreign behaviour is given to the model as parameters:

- `newInstance`, which uses class loading and reflection, is a total function `string -> Instantiation`.
- The result of reading and parsing a configuration file is `ConfigFile.parsed`. It is `None` when the read or the parse failed.
- The server registry of client configurations is `Option<seq<ClientConfig>>`. It is `None` when no server configuration is available.

Assumptions:

- `LogicalConfigDelegateHandler` carries the same "inserted by the configurer" tag as `ConfigDelegateHandler`. Both are `Handler.Cfg`, told apart by the `logical` flag. The strip test at src/main/java/org/jboss/ws/common/configuration/ConfigHelper.java:148 checks only for `ConfigDelegateHandler`, and the wrapper classes are not part of this model.
- `ConfigRoot.getClientConfigByName`, which is not part of this model, returns the first client configuration with the requested name (`FirstByName`).
- A null list of handler chains behaves like an empty one, in the code as in the model.

Two behaviours of the code that a reader may not expect:

- An empty filter string, or one made only of spaces, matches no binding. It is not treated like an absent filter (`BlankFilterMatchesNothing`).
- Only the space character separates the words of a filter, because the tokenizer's delimiter set is `" "`. Tabs and newlines are part of a word.

## Model

| member | source | states |
|---|---|---|
| ProtocolBinding.ProtocolBindingToken | src/main/java/org/jboss/ws/common/configuration/ConfigHelper.java:65-72 | a binding identifier has a token exactly when it is one of the five JAX-WS SOAP 1.1/1.2 (with or without MTOM) and XML/HTTP binding identifiers; any other has none |
| ProtocolBinding.TokenTableInjective | src/main/java/org/jboss/ws/common/configuration/ConfigHelper.java:65-72 | the five table entries map to distinct tokens |
| ProtocolBinding.TokenLength | src/main/java/org/jboss/ws/common/configuration/ConfigHelper.java:206-209 | the length of the run of non-space characters at the front of a string: all of them are non-space, and the next character is a space or the end |
| ProtocolBinding.Tokens | src/main/java/org/jboss/ws/common/configuration/ConfigHelper.java:206-209 | every token is non-empty and contains no space |
| ProtocolBinding.Tokenize | src/main/java/org/jboss/ws/common/configuration/ConfigHelper.java:204-210 | the tokenizer loop collects exactly the space-separated tokens of the filter, in order |
| ProtocolBinding.MatchProtocolBinding | src/main/java/org/jboss/ws/common/configuration/ConfigHelper.java:201-212 | true for an absent filter; otherwise true exactly when the current token is present and is a space-delimited word of the filter |
| ProtocolBinding.TokensOccur | src/main/java/org/jboss/ws/common/configuration/ConfigHelper.java:206-209 | every token yielded is a non-empty, space-free word of the filter, delimited by spaces or the ends |
| ProtocolBinding.DelimitedIsToken | src/main/java/org/jboss/ws/common/configuration/ConfigHelper.java:206-209 | every non-empty, space-free, space-delimited word of the filter is among the tokens yielded |
| ProtocolBinding.TokenAtShift | src/main/java/org/jboss/ws/common/configuration/ConfigHelper.java:206-209 | a delimited word of a suffix of the filter is a delimited word of the whole filter |
| ProtocolBinding.Matches | src/main/java/org/jboss/ws/common/configuration/ConfigHelper.java:201-212 | an absent current token (binding identifier missing from the table) is admitted only by an absent filter; a present filter admits only a non-empty, space-free token; MatchesIff characterises it completely |
| ProtocolBinding.MatchesIff | src/main/java/org/jboss/ws/common/configuration/ConfigHelper.java:201-212 | a chain applies if and only if its filter is absent or the current token is a space-delimited word of the filter |
| ProtocolBinding.BlankHasNoTokens | src/main/java/org/jboss/ws/common/configuration/ConfigHelper.java:206-209 | an empty or all-space filter yields no token |
| ProtocolBinding.BlankFilterMatchesNothing | src/main/java/org/jboss/ws/common/configuration/ConfigHelper.java:201-212 | an empty or all-space filter matches no binding, not even one whose identifier is missing from the table |
| ProtocolBinding.UnknownBindingMatchesOnlyUnfiltered | src/main/java/org/jboss/ws/common/configuration/ConfigHelper.java:161-168 | for a binding identifier missing from the table, exactly the chains without a filter apply |
| ProtocolBinding.SingleWordFilter | src/main/java/org/jboss/ws/common/configuration/ConfigHelper.java:201-212 | a filter that is one word matches exactly that token |
| ProtocolBinding.Soap12FilterExcludesSoap11 | src/main/java/org/jboss/ws/common/configuration/ConfigHelper.java:161-168 | a chain filtered on ##SOAP12_HTTP does not apply to a SOAP 1.1 binding |
| HandlerChain.NonConfig | src/main/java/org/jboss/ws/common/configuration/ConfigHelper.java:145-153 | stripping keeps exactly the user handlers of the chain (membership in both directions) and never lengthens it |
| HandlerChain.NonConfigAppend | src/main/java/org/jboss/ws/common/configuration/ConfigHelper.java:145-153 | stripping distributes over concatenation, so the relative order of user handlers is kept |
| HandlerChain.NonConfigOfUsers | src/main/java/org/jboss/ws/common/configuration/ConfigHelper.java:145-153 | a chain of user handlers only is left unchanged |
| HandlerChain.NonConfigOfConfig | src/main/java/org/jboss/ws/common/configuration/ConfigHelper.java:145-153 | a chain of inserted wrappers only is removed entirely |
| HandlerChain.NonConfigIdempotent | src/main/java/org/jboss/ws/common/configuration/ConfigHelper.java:145-153 | stripping twice equals stripping once |
| HandlerChain.Selected | src/main/java/org/jboss/ws/common/configuration/ConfigHelper.java:161-169 | every selected declaration is declared by a chain whose filter admits the token; SelectedMembership gives the converse, SelectedAppend and SelectedSnoc the order |
| HandlerChain.SelectedAppend | src/main/java/org/jboss/ws/common/configuration/ConfigHelper.java:162-169 | selection distributes over concatenation of chain lists: chains in order |
| HandlerChain.SelectedSnoc | src/main/java/org/jboss/ws/common/configuration/ConfigHelper.java:162-169 | one more chain adds its handlers, in order, exactly when its filter matches |
| HandlerChain.SelectedMembership | src/main/java/org/jboss/ws/common/configuration/ConfigHelper.java:162-169 | a declaration is selected if and only if it belongs to a chain whose filter admits the binding's token |
| HandlerChain.PatternsIgnored | src/main/java/org/jboss/ws/common/configuration/ConfigHelper.java:164-168 | port-name and service-name patterns never change which handlers are selected |
| HandlerChain.Convert | src/main/java/org/jboss/ws/common/configuration/ConfigHelper.java:156-199 | the wrappers of the selected handlers, all tagged with the requested pre/post flag, or a not-a-JAX-WS-handler error; ConvertDeclsOkIff, ConvertDeclsErrNamesFirst, SkipFailed and ConvertDeclsAllLoaded characterise it |
| HandlerChain.ConvertDecls | src/main/java/org/jboss/ws/common/configuration/ConfigHelper.java:169-194 | every wrapper produced is config-tagged with the requested pre/post flag, there are at most as many as declarations, and the only error is not-a-JAX-WS-handler |
| HandlerChain.ConvertDeclsStep | src/main/java/org/jboss/ws/common/configuration/ConfigHelper.java:175-193 | one more declaration is skipped if its class fails to load, aborts if it is not a handler, and otherwise appends a logical or plain wrapper |
| HandlerChain.ConvertDeclsAppend | src/main/java/org/jboss/ws/common/configuration/ConfigHelper.java:162-194 | converting a concatenation is converting the parts in sequence, and the first error wins |
| HandlerChain.ConvertAbortsAt | src/main/java/org/jboss/ws/common/configuration/ConfigHelper.java:162-196 | once the chains converted so far have failed, the whole conversion fails with that error, whatever chains follow |
| HandlerChain.SkipFailed | src/main/java/org/jboss/ws/common/configuration/ConfigHelper.java:175-177 | a handler whose class fails to instantiate is omitted and the rest is unchanged |
| HandlerChain.ConvertDeclsOkIff | src/main/java/org/jboss/ws/common/configuration/ConfigHelper.java:178-192 | conversion fails if and only if some selected class instantiates to a non-handler |
| HandlerChain.ConvertDeclsErrNamesFirst | src/main/java/org/jboss/ws/common/configuration/ConfigHelper.java:189-192 | the not-a-JAX-WS-handler error names the first selected class that is not a handler |
| HandlerChain.ConvertDeclsAllLoaded | src/main/java/org/jboss/ws/common/configuration/ConfigHelper.java:169-188 | when every class loads as a handler, each declaration appears once, at its own position, with its logical or plain wrapper |
| HandlerChain.Install | src/main/java/org/jboss/ws/common/configuration/ConfigHelper.java:134-140 | the only error is not-a-JAX-WS-handler; on success every handler is an inserted wrapper or comes from the old chain, and the user handlers of the new chain are exactly those of the old chain, in order; InstallLayout and InstallIdempotent characterise it further |
| HandlerChain.InstallLayout | src/main/java/org/jboss/ws/common/configuration/ConfigHelper.java:136-140 | the installed chain is pre wrappers (all tagged pre) ++ old user handlers ++ post wrappers (all tagged post) |
| HandlerChain.InstallIdempotent | src/main/java/org/jboss/ws/common/configuration/ConfigHelper.java:135-140 | installing the same configuration again gives the very same chain: inserted handlers do not accumulate |
| HandlerChain.InstallErrorIgnoresChain | src/main/java/org/jboss/ws/common/configuration/ConfigHelper.java:137-139 | whether installation fails, and with which error, does not depend on the binding's current chain |
| HandlerChain.InstallExample | src/main/java/org/jboss/ws/common/configuration/ConfigHelper.java:136-140 | user handlers [U1, U2] with an unfiltered pre chain [P1] and post chain [Q1] give [P1, U1, U2, Q1] |
| ConfigHelper.Binding.constructor | src/main/java/org/jboss/ws/common/configuration/ConfigHelper.java:132 | a binding with the given identifier and handler chain |
| ConfigHelper.Binding.SetHandlerChain | src/main/java/org/jboss/ws/common/configuration/ConfigHelper.java:140 | the binding's chain is replaced by the given one |
| ConfigHelper.FirstByName | src/main/java/org/jboss/ws/common/configuration/ConfigHelper.java:94 | the configuration returned has the requested name and no earlier one does; none is returned exactly when no configuration has that name |
| ConfigHelper.LookupConfig | src/main/java/org/jboss/ws/common/configuration/ConfigHelper.java:87-123 | the lookup as one value: could-not-read for an unreadable file, otherwise a configuration of the requested name or not-found, and not-found when there is neither a file nor a registry; ReadConfig is proved equal to it |
| ConfigHelper.GetNonConfigHandlers | src/main/java/org/jboss/ws/common/configuration/ConfigHelper.java:145-153 | the loop keeps exactly the stripped chain NonConfig |
| ConfigHelper.AppendChainHandlers | src/main/java/org/jboss/ws/common/configuration/ConfigHelper.java:169-194 | the inner loop over one applicable chain extends a successful conversion exactly as ConvertDecls does: skipped failures, logical or plain wrappers, early exit on the first non-handler |
| ConfigHelper.ConvertToHandlers | src/main/java/org/jboss/ws/common/configuration/ConfigHelper.java:156-199 | the empty-list guard and the loop over chains (its inner loop is AppendChainHandlers) with early exit compute exactly Convert: the wrappers of the selected handlers, or the first not-a-handler error |
| ConfigHelper.SetupConfigHandlers | src/main/java/org/jboss/ws/common/configuration/ConfigHelper.java:132-142 | with no configuration the binding is untouched; otherwise the binding gets Install's chain, or it keeps its chain and the error is returned |
| ConfigHelper.ReadConfig | src/main/java/org/jboss/ws/common/configuration/ConfigHelper.java:87-123 | with a file: a read or parse failure gives could-not-read, and otherwise the file's configuration of that name or not-found, without consulting the registry; without a file: the first registry configuration of that name (the early-return scan), or not-found when there is none or no registry |
| ConfigHelper.SetConfigHandlers | src/main/java/org/jboss/ws/common/configuration/ConfigHelper.java:74-79 | a lookup error is returned with the binding untouched; otherwise the looked-up configuration is installed exactly as by setupConfigHandlers |
| ConfigHelper.SetConfigProperties | src/main/java/org/jboss/ws/common/configuration/ConfigHelper.java:81-85 | always fails with operation-not-supported |

## Left out

- newInstance: an `Error` (not an `Exception`) escaping the class loader or the constructor is not modelled. The code catches only `Exception` (ConfigHelper.java:223), so such an `Error` would abort the installation and leave the binding untouched, as `NotAHandler` does.
- Class loading and reflection in `newInstance` are not modelled. The layered class loader, `loadClass` and `newInstance()` are replaced by the parameter `newInstance: string -> Instantiation`.
- Opening the resource stream, parsing the XML, and closing the stream are not modelled. A failure to close is swallowed in the code. The outcome of the read and the parse is the input `ConfigFile.parsed`.
- SPI provider resolution of the server configuration is not modelled. The registry of client configurations is an input.
- Logging is not modelled. This covers the warnings for unsupported port/service-name filters, for unsupported init-params, and for a handler class that cannot be added. These warnings do not change the result.
- The message-dispatch behaviour of the delegate handlers is not modelled. The wrapper classes are not part of this model; only their tag, the wrapped class and the pre/post flag are.
- `ServerConfig` is not modelled. It is an interface of getters and setters with no logic.
- Null strings are not modelled. A null configuration name, and a null binding identifier, are outside the model. The code would throw for a registry entry whose name is null.
- The `ClientConfig` handed to the installer is `Option` only at `SetupConfigHandlers`. `readConfig` never returns null.
