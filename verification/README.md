# Larking, verified

A Dafny model of the request path of larking, a gRPC server that also answers HTTP/JSON. It
models, with the source's own branches, limits and error cases:

- **Templates and paths** (`Tokens`, `Grammar`, `Route`, `Lexers`). The hand-written lexer is a
  class whose methods move `pos`, `start`, `width` and `len` and write into a 64-slot token
  array. It refines a grammar given as a syntax tree, a printer and a reference parser.
- **The routing tree as a value** (`Tries`, `Rules`, `Compile`, `Matching`, `Running`,
  `Routing`, `Registry`, `Pruning`, `RoundTrip`, `Instances`). A tree is a finite map from
  addresses (the edges from the root) to what a node holds. Here are the specifications of
  `addRule`, `delRule` and `search`, and the theorems about them: search is, on every route and
  with every decoder, the least clear run down the tree, and where the source measures variables
  correctly the least derivation of a declarative matcher; rules are added exactly and in any
  order, deletions are exact, a compiled template matches what fills it in.
- **The routing tree as objects** (`PathTree`, `PathRules`, `PathSearch`, `PathCopy`,
  `PathDelete`). Class `Path` has the fields of the source's `path`. A ghost *shape* maps each
  address to its node object; the methods keep the shape's invariant and change the trie that
  the objects stand for exactly as the value functions say. Maps are walked in no particular
  order, as in Go.
- **Stream framing** (`Streams`, `Varints`, `Braces`, `Codecs`, `HttpStream`, `Framing`,
  `Serving`). Readers
  hand out their bytes in arbitrary chunks, buffers have arbitrary capacities. What a codec
  returns depends on the bytes only, and the bytes that were read too far resume in the next
  call.
- **Configuration and state** (`Selectors`, `SelectorTree`, `MuxState`). The selector trie against
  the flat list of rules; registrations that work on a clone and publish it whole or not at all.
- **Negotiation** (`Negotiation`): reading Accept headers, with their decimal weights, and the
  choice of an offer.
- **The benchmark odometer** (`Odometer`): the in-place mixed-radix counter.

A panic of the source is a result here (`Panics`, `Crashed`, `Panicked`), so that every claim
says when it can happen. Where the source's comments and its code disagree, the model follows
the code:

- `variable.index` looks for separators from the start of the tokens, not from where the pattern
  stands (larking/rules.go:671, 678). `Matching.LastExact` and `Matching.InnerExact` give its exact
  value on every pattern and route: with a colon in the route, the segments before a `**` count
  twice. For patterns whose only `**` is at the end it is right if and only if the route has no
  colon, or no segment stands before the `**`, or the pattern does not match
  (`Matching.AgreesIff`); a pattern with an earlier `**` matches nothing, and `Matching.InnerAgreesIff`
  says when the index takes something all the same. `Routing.SearchIsLeastRun` says what the search
  then does on any tree and route, panics included, and `RoundTrip.SearchRoundTrip` what one rule
  answers: `/{name=aa/**}` answers `/aa/bb:cc` and captures the verb too (`Instances.SwallowsVerb`),
  and `/{name=aa/bb/**}` panics on `/aa/bb/cc:dd` (`Instances.PanicsOnVerb`).
- A capture that does not decode ends the search at its node (larking/rules.go:743-746). A run is
  clear when its captures decode and no earlier run was cut short in this way at one of its nodes;
  the search finds the least clear run (`Routing.SearchIsLeastRun`). `Routing.CompleteIffTotal`
  shows that it is complete on all trees and routes exactly when every text that can be captured
  decodes.
- `addRule` dereferences nil when the node has a wildcard method and none for the verb
  (larking/rules.go:355-356), and panics on a variable inside another one once the field paths
  that it looks up are known; `Registry.AddPanicsIff` is the exact condition. As every method gets
  an implicit wildcard rule, a method whose name is no template, such as `/pkg.Service/M`, panics
  when it is registered (`MuxState.ShortNamePanics`), and every method panics when it is registered
  again (`MuxState.SecondTimePanics`); `MuxState.MethodPanicsIff` is the exact condition.
- `alive` does not look at the wildcard method (larking/rules.go:167-171), so `delRule` can drop a
  node that still has one; `Pruning.DeleteExact` says for which nodes.
- The response field path is resolved from `body`, not from `response_body`
  (larking/rules.go:383): `Rules.ResponseIsBody`.
- `codecHTTPBody.ReadNext` counts only new bytes (larking/codec.go:271-279), so bytes that were
  carried over are never received. A body within the limit is received through every reader and
  every buffer (`Framing.ReceiveBody`), and the limit is the exact bound: every longer body is cut
  by some reader (`Framing.CutBody`), though not by all (`Framing.WholeBody`).
- A JSON object, or the size of a message, that the end of the stream cuts off is received as an
  empty message; only a cut inside a sized message is an error (larking/http.go:174-177):
  `Framing.ReceiveCutObject` and `Framing.ReceiveCut`. A size that does not fit in an int panics
  (`Framing.ReceiveBadSize`).
- The comment on `negotiateContentEncoding` promises an empty string when no offer is acceptable;
  the code returns `identity` when none matches, and the empty string when the best match has
  weight zero (larking/negotiate.go:148-168).
- The comment on `ruleSelector` says that a final `*` stands for one or more components and that
  other selectors are whole names (larking/mux.go:77-84). In the code both select every name that
  starts with their components; `Selectors.DocumentedIff` says for which names this is the same.
- A connection that comes back with other descriptors keeps the wildcard methods that no specific
  binding stands at or below (larking/mux.go:493-520), and these make registering their method
  again panic. So such a reconnection never succeeds when it has such a method in common with the
  published tree. When it succeeds, every bound method has a handler if and only if no binding is
  left of a method that lost its last handler and is not among the new ones; a wildcard method
  that stays, of a method that the connection no longer has, is such a binding
  (`MuxState.Mux.RegisterConn`).
- `DropConn` edits a clone that it never stores (larking/mux.go:378-385), so the connection stays
  registered.

`dafny verify dfyconfig.toml` checks the whole project.

## Model

| member | source | states |
|---|---|---|
| Characters.AsciiClasses | larking/lexer.go:157-169 | Which ASCII characters names, literals and paths are made of: those of RFC 3986 path segments without the colon and the percent sign. |
| Grammar.TemplateIffPrinted | larking/lexer.go:16-23 | A text is a template with a given syntax tree if and only if the tree is well formed and prints to the text: the implemented grammar is unambiguous, and parsing and printing are inverse. |
| Grammar.TemplateText | larking/lexer.go:50-56 | The values of a template's tokens, joined, are the template. |
| Route.RouteIffPrinted | larking/lexer.go:312-336 | A text is a path with given parts if and only if the parts are well formed and print to it. |
| Route.RouteText | larking/lexer.go:50-56 | The values of a path's tokens, joined, are the path. |
| Lexers.Lexer.constructor | larking/lexer.go:76-83 | A new lexer has emitted nothing and all token slots are zero. |
| Lexers.Lexer.Next | larking/lexer.go:89-102 | The next character and a width of one, or nothing and a width of zero at the end. |
| Lexers.Lexer.Backup | larking/lexer.go:115-117 | Moves back by the width of the last read. |
| Lexers.Lexer.AcceptRun | larking/lexer.go:119-126 | Takes exactly the longest run of valid characters and counts it. |
| Lexers.Lexer.Emit | larking/lexer.go:130-140 | Appends the text since `start`, or refuses when all 64 slots are used; emitted values always tile the input up to `start`. |
| Lexers.Lexer.ErrUnexpected | larking/lexer.go:142-148 | An error, also at the token limit; the tiling is kept. |
| Lexers.Lexer.ErrShort | larking/lexer.go:149-155 | An error, also at the token limit; the tiling is kept. |
| Lexers.Lexer.LexIdent | larking/lexer.go:171-176 | Accepts exactly a non-empty run of identifier characters within the token limit. |
| Lexers.Lexer.LexLiteral | larking/lexer.go:178-183 | Accepts exactly a further non-empty run of literal characters within the limit. |
| Lexers.Lexer.LexFieldPath | larking/lexer.go:185-201 | Emits the tokens of the field path that the grammar reads, and fails exactly when there is none or it does not fit. |
| Lexers.Lexer.LexVerb | larking/lexer.go:203-211 | Accepts exactly a literal that reaches the end of the input. |
| Lexers.Lexer.LexVariable | larking/lexer.go:213-241 | Emits the tokens of the variable that the grammar reads, nested ones included, and fails exactly when there is none or it does not fit. |
| Lexers.Lexer.LexSegment | larking/lexer.go:243-261 | The same for a segment; a literal segment starts with a letter and has at least two characters. |
| Lexers.Lexer.LexSegments | larking/lexer.go:263-276 | The same for a list of segments. |
| Lexers.Lexer.LexTemplate | larking/lexer.go:278-303 | Succeeds if and only if the input is a template of at most 64 tokens, and then has emitted exactly its tokens. |
| Lexers.Lexer.LexPathSegment | larking/lexer.go:305-310 | Accepts exactly a non-empty run of path characters within the limit. |
| Lexers.Lexer.LexPath | larking/lexer.go:313-336 | Succeeds if and only if the input is a path of at most 64 tokens, and then has emitted exactly its tokens. |
| Lexers.RouteFitsIff | larking/lexer.go:76-83 | A path fits in the 64 slots if and only if it has at most 31 parts. |
| Tries.InsertSorts | larking/rules.go:107-108 | Appending a variable of a new name and sorting by name gives the sorted permutation. |
| Tries.SortedUnique | larking/rules.go:57 | A list of variables sorted by name is determined by its elements. |
| Tries.LessIff | larking/rules.go:107-108 | The order of names: a proper prefix is less, and otherwise the first character that differs decides. |
| Compile.FlatWalk | larking/rules.go:271-353 | On an accepted template without nested variables the token walk does what the syntax tree says, never panics, and never depends on the slots after the EOF token. |
| Compile.WalkEnds | larking/rules.go:271-353 | How the walk over any accepted template ends, from its syntax: at an unknown field, at the end, or in a panic exactly when all fields that it looks up are known and a variable has another one inside. |
| Rules.TouchGood | larking/rules.go:97-120 | Adding a child keeps variables unique, sorted and named by their tokens, and keeps one field path per variable edge in every method. |
| Rules.GrowGood | larking/rules.go:284-352 | Growing along a template keeps the invariant of the tree and all bindings. |
| Rules.GrowKeys | larking/rules.go:284-352 | Growing adds exactly the addresses on the way. |
| Rules.AddOneExact | larking/rules.go:233-394 | One binding: exactly the target is added, nothing is removed or replaced; when it is not added no binding changes. |
| Rules.VerbRoundTrip | larking/rules.go:239-262 | Each kind of pattern stands for its HTTP verb, and a custom one for its kind. |
| Rules.UpperAt | larking/rules.go:256 | The kind of a custom pattern is taken in capitals. |
| Rules.SplitDotted | larking/rules.go:372 | Splitting undoes joining with dots. |
| Rules.DottedSplit | larking/rules.go:372 | Joining with dots undoes splitting. |
| Rules.BodyField | larking/rules.go:366-387 | A body that names a field by its path: the method has the field that the descriptor has there as its body, and is refused when there is none. |
| Rules.BodyWhole | larking/rules.go:366-371 | The body `*` is the whole message, and without a body there is none. |
| Rules.ResponseIsBody | larking/rules.go:379-387 | The response field is the one that `body` names, whatever the response body says; so it is the intended one if and only if both name the same field. |
| Rules.AddMoreExact | larking/rules.go:396-404 | The additional bindings add exactly their targets, also when one of them fails. |
| Rules.AddRuleExact | larking/rules.go:233-407 | A rule adds exactly its own bindings and those of its additional bindings under its name, never removing or replacing one, even when it fails; on success all of them are bound. |
| Registry.ArrivedIsFlat | larking/rules.go:271-353 | A walk that arrives comes from a template without nested variables and takes the steps of its syntax tree. |
| Registry.AddPanicsIff | larking/rules.go:271-359 | A binding panics if and only if its template is accepted, the fields that its walk looks up are known, and it has a nested variable or its node has a wildcard method and none for the verb. |
| Registry.AddOutcome | larking/rules.go:233-394 | How one binding ends, from the syntax of its template, the known fields and the bindings of its node: unsupported, malformed, unknown field, duplicate, made before, bad body, panic or added. |
| Registry.AddMoreIff | larking/rules.go:396-404 | The additional bindings are all added if and only if none has additional bindings itself and each is accepted in its turn. |
| Registry.AddRuleIff | larking/rules.go:233-407 | A rule is accepted if and only if its own binding was made before, or can be added and its additional bindings are each accepted in their turn. |
| Registry.AddRulePlain | larking/rules.go:233-407 | A rule that is added leaves only variables that the matcher can read. |
| Registry.TrieEqual | larking/rules.go:53-58 | A tree is determined by its addresses and its bindings. |
| Registry.AddAllIff | larking/rules.go:355-394 | A list of bindings is added if and only if each can be added alone and they are compatible with each other. |
| Registry.OrderIrrelevant | larking/rules.go:97-120 | Two lists of the same bindings that are both added give the same tree. |
| Registry.PermutationIrrelevant | larking/rules.go:233-407 | When no wildcard binding shares its node with a specific one, every permutation of the bindings gives the same outcome and the same tree. |
| Registry.WildcardLast | larking/rules.go:355-359 | Where they share a node, the specific binding has to come first. |
| Matching.IndexReach | larking/rules.go:654-696 | The source's capture length on every pattern and every route, panics included, in terms of parts. |
| Matching.IndexExact | larking/rules.go:654-696 | For patterns whose only `**` is at the end, on every route: it misses exactly when the pattern does not match; otherwise it takes what the pattern matches, and on a route with a colon the segments before the `**` once more. |
| Matching.AgreesIff | larking/rules.go:671-682 | For these patterns it is right if and only if the route has no colon, or no segment stands before the `**`, or the pattern does not match. |
| Matching.LastExact | larking/rules.go:654-696 | The exact value from any part of any route, for patterns with a `**` at most at the end. |
| Matching.InnerExact | larking/rules.go:654-696 | The exact value for patterns with an earlier `**`: a miss, a panic beyond the end of the route, or the value of the segments after the `**` behind the parts that were counted. |
| Matching.InnerAgreesIff | larking/rules.go:671-682 | A pattern with an earlier `**` matches nothing; exactly when the index misses too. |
| Matching.InnerDeepTakes | larking/rules.go:677-682 | A pattern with a `**` in the middle, which matches nothing, and a route with a colon of which the source takes all. |
| Matching.DeepAt | larking/rules.go:677-682 | Where the source puts the end of a `**` that is not in front: it counts what is before it twice. |
| Matching.VariableTakes | larking/rules.go:727-731 | What one variable takes from any route. |
| Running.SearchFrom | larking/rules.go:707-752 | From any node, on every route and with every decoder: what is found, or panics, is the least clear run down the tree, with its decoded captures as parameters. |
| Running.MissingError | larking/rules.go:698-751 | Which error a search that finds nothing gives: the method is wrong exactly when nothing of the route is left, a parameter exactly when a capture at this node did not decode. |
| Running.RunsAreDerivations | larking/rules.go:707-752 | On a route without a colon, or in a tree whose variables have a `**` at most in front, the runs are the derivations of the declarative matcher, and none panics. |
| Routing.SearchIsLeastRun | larking/rules.go:703-752 | On every route and with every decoder: a method is found, a panic happens, or nothing is found exactly when the least clear run ends in that method, ends in a panic, or does not exist. What is found is the specific binding of the node for the verb, or its wildcard binding if it has none. |
| Routing.RunIffReplies | larking/rules.go:709-716 | A run ends in a method if and only if its edges take the whole route to a node that answers with it: its binding for the verb before its wildcard binding. |
| Routing.AcceptsReplies | larking/rules.go:709-716 | The same for derivations. |
| Routing.ClearIffRun | larking/rules.go:743-746 | When the captures of all runs of a route decode, the clear runs are the runs. |
| Routing.SearchIsRun | larking/rules.go:707-752 | Whatever the decoder and the route: what is found is at the end of a run whose captures decode, and the search panics only where a run does. |
| Routing.SearchIsLeast | larking/rules.go:703-752 | On a route without a colon, or with `**` at most in front of the variables: it is found if and only if a sequence of edges takes all of it to a node that answers the verb; the result is the least such sequence: literals first, variables by name, the specific verb before the wildcard. The captures of this route's derivations have to decode. |
| Routing.SearchIsSound | larking/rules.go:707-752 | On these routes, whatever the decoder, what is found is a derivation, and search never panics. |
| Matching.PrecedesIff | larking/rules.go:703-706 | Derivations are ordered by their first difference: a literal before a variable, and variables by name. |
| Matching.PrecedesAntisymmetric | larking/rules.go:703-706 | There is at most one least derivation. |
| Routing.Reconstruction | larking/rules.go:718-749 | The keys, separators and captures along a run to a method, in order, spell the whole route, also where the index overshoots. |
| Routing.CompleteIffTotal | larking/rules.go:737-747 | Search finds every route that has a decodable derivation, on every tree, if and only if no text that can be captured fails to decode. |
| PathSearch.MatchIsLeast | larking/rules.go:755-762 | From the text of any route and with every decoder: a method is found, or a panic happens, if and only if it is a path of at most 64 tokens whose least clear run ends so; that run spells the route. |
| PathSearch.MatchIsDerivation | larking/rules.go:755-762 | On a route without a colon, or with `**` at most in front of the variables: it is matched if and only if it is a path of at most 64 tokens with a derivation; the result is the least one. |
| PathSearch.MatchError | larking/rules.go:755-762 | Which error a route that is not matched gives. |
| RoundTrip.StepStride | larking/rules.go:654-696 | What the step of a segment takes from the texts that fill it in and whatever follows them: one part too many for each segment before its `**`, or a panic. |
| RoundTrip.FillTrace | larking/rules.go:707-752 | Where a path ends that fills in the segments of a template and goes on in any way, and what is captured on the way. |
| RoundTrip.OneWay | larking/rules.go:707-752 | In the tree of one rule there is one run at most. |
| RoundTrip.OnlyRule | larking/rules.go:707-752 | The tree of one rule, on every route and with every decoder: it panics exactly where the rule's own edges do, and answers exactly when these take the whole route and the captures decode. |
| RoundTrip.VarsAreAsked | larking/rules.go:736-743 | The i-th capture of a rule is for the field of its i-th variable. |
| RoundTrip.SearchRoundTrip | larking/rules.go:233-407 | A path that fills in the segments of the only rule and goes on in any way: found, missing or panic, with the captured texts. After a final `**` the rest has to start with a colon. |
| RoundTrip.RoundTrip | larking/rules.go:755-762 | After adding one rule to an empty tree, the path that fills in its template is answered with its method and exactly the filled-in texts if and only if the path fits in 64 tokens, no segment before a final `**` is counted twice because a verb follows, and the texts decode. With one such segment nothing is found, with more the search panics. |
| RoundTrip.EarlyUnanswered | larking/rules.go:677-682 | A rule whose template has a `**` before its end answers no route without a colon. |
| RoundTrip.FilledIsAnswered | larking/rules.go:707-762 | In any tree with a binding at the place of a rule, a path that fills in its template is not missed, if the captures of its runs decode. |
| RoundTrip.SpecificFirst | larking/rules.go:709-716 | A specific binding and then a wildcard one for the same node: the specific verb gets the specific method, all verbs that are not bound the wildcard one. |
| Instances.EarlyAnswered | larking/rules.go:727 | The rule `/{aa=**}/{bb=*}` answers `/x/y:z` if and only if both captures decode. |
| Instances.OneRoute | larking/rules.go:654-752 | The rule of any one variable that ends in `**`, on a route that goes on with a colon: not found, found with the text after the colon, or a panic, by the number of segments before the `**`. |
| Instances.SwallowsVerb | larking/rules.go:677-682 | The rule `/{name=aa/**}` on `/aa/bb:cc`. |
| Instances.PanicsOnVerb | larking/rules.go:677-682 | The rule `/{name=aa/bb/**}` on `/aa/bb/cc:dd`. |
| Instances.SpecificOverWildcard | larking/rules.go:709-714 | After the rules `get: "/books"` and `custom: {kind: "*", path: "/books"}`, GET gets the first method and every other verb the second. |
| Instances.TemplateExample | larking/lexer.go:16-23 | The syntax tree of `/v1/{a=bb/*}/{c._}/**:e.f`. |
| Instances.RouteExample | larking/lexer.go:312-336 | The parts of `/a~/(b@:c`. |
| Pruning.PruneRemoves | larking/rules.go:203-222 | Unwinding a deletion removes exactly the nodes on the way that hold nothing else. |
| Pruning.DeleteExact | larking/rules.go:202-230 | A deletion removes one specific binding and no other, keeps the order of the variables, and loses a node, with its wildcard method, exactly when the node held only the way to the deleted binding. |
| Pruning.WildcardLost | larking/rules.go:167-171 | A tree in which deleting a specific method loses a wildcard method. |
| Pruning.PruneThrough | larking/rules.go:203-210 | One level of the recursion: deleting up to the child, then the child if it is dead. |
| PathTree.Path.constructor | larking/rules.go:122-127 | A new node is empty. |
| PathTree.Path.FindVariable | larking/rules.go:88-95 | The branch of a name, or none. |
| PathTree.Path.AppendVariable | larking/rules.go:102-109 | A new variable edge and node; the tree is the value tree after the same step. |
| PathTree.Path.AddVariable | larking/rules.go:97-110 | The child along a variable, created if it is missing; only this node changes. |
| PathTree.Path.NewPath | larking/rules.go:117-119 | A new literal edge and node. |
| PathTree.Path.AddPath | larking/rules.go:112-120 | The child along a literal, created if it is missing; only this node changes. |
| PathTree.Path.Set | larking/rules.go:389-394 | Registers a method for a verb, or as the wildcard. |
| PathRules.ReadPattern | larking/rules.go:312-314 | The loop collects the tokens up to the first closing brace, or runs off the slots. |
| PathRules.ReadHeader | larking/rules.go:299-325 | The loops read the field path and the pattern of a variable exactly as the walk says. |
| PathRules.ReadSegment | larking/rules.go:286-338 | One iteration of the loop over segments. |
| PathRules.ReadVariable | larking/rules.go:298-334 | The variable branch of that iteration, with its unknown-field error. |
| PathRules.Advance | larking/rules.go:290-334 | The cursor moves to the child along a step. |
| PathRules.WalkSegments | larking/rules.go:283-339 | The loop over segments: what is ahead of the cursor completes the whole walk. |
| PathRules.WalkTree | larking/rules.go:271-353 | The whole walk grows the tree and ends at the node, with the field paths, that the value walk gives. |
| PathRules.Bind | larking/rules.go:355-394 | What happens at the node that the walk has reached. |
| PathRules.AddBinding | larking/rules.go:233-394 | `addRule` without additional bindings, on objects: tree and outcome are those of the value function. |
| PathRules.AddRule | larking/rules.go:233-407 | `addRule` on objects: tree and outcome are those of the value function, also on errors and panics. |
| PathSearch.IndexAny | larking/lexer.go:58-74 | The first token whose kind is in the mask, or -1. |
| PathSearch.Index | larking/rules.go:654-696 | The loop computes the capture length of the value function. |
| PathSearch.Search | larking/rules.go:707-752 | Search on objects is search on the trie they stand for. |
| PathSearch.Match | larking/rules.go:755-762 | Lexing and searching a route. |
| PathCopy.CloneSegments | larking/rules.go:180-182 | All literal children are copied, in any order, into new nodes. |
| PathCopy.CloneVariables | larking/rules.go:184-191 | All variables are copied in their order, with new nodes. |
| PathCopy.Clone | larking/rules.go:174-199 | A copy of a subtree: new objects at the same addresses, with the same content and links among themselves. |
| PathCopy.CloneTree | larking/rules.go:174-199 | The clone of a whole tree consists of new objects and has the same content. |
| PathDelete.IsAlive | larking/rules.go:167-171 | A node is alive when it has a specific method or a child. |
| PathDelete.DropPath | larking/rules.go:205-207 | Deleting a dead child from the map. |
| PathDelete.DropVariable | larking/rules.go:214-218 | Deleting a dead child from the list of variables. |
| PathDelete.DelSegments | larking/rules.go:203-210 | The loop over literal edges: one deletion below one of them, or none has the name. |
| PathDelete.DelVariables | larking/rules.go:212-221 | The loop over variables. |
| PathDelete.DelMethod | larking/rules.go:223-228 | One method of the name goes, or none has it. |
| PathDelete.DelRule | larking/rules.go:202-230 | True exactly when a specific method of the name is below the node; then one deletion happens as specified, otherwise nothing changes. It happens below literal edges first, then below the variables in their order, and at a node only when nothing below it has the name. |
| PathDelete.EditClone | larking/rules.go:173-230 | Any sequence of `addRule` and `delRule` on a clone leaves the original, and so every match on it, as it was. |
| Streams.ReadFull | larking/codec.go:140-145 | Exactly the wanted bytes, or the error after the last one. |
| Streams.GrowCap | larking/codec.go:29-47 | The new capacity is at least the wanted one, also when the 64-bit arithmetic overflows, and is doubled or at most a quarter above it. |
| Streams.ReadMore | larking/codec.go:109-115 | One read into spare capacity: no byte is lost or reordered. |
| Varints.ConsumeEncode | larking/codec.go:124-127 | Decoding a base 128 varint undoes encoding it, whatever follows, for every unsigned 64-bit value. |
| Varints.EncodeForm | larking/codec.go:155 | The encoding is the value in groups of seven bits, the lowest first, all but the last with the highest bit set and none superfluous. |
| Varints.Encode300 | larking/codec.go:155 | 300 is encoded as in the protocol buffer documentation. |
| Varints.DigitsAre | larking/codec.go:124 | What is decoded are the groups of the bytes up to the one that ends the varint. |
| Varints.TooBigIff | larking/codec.go:124-127 | A varint is malformed exactly when nine bytes do not end it and the tenth is above one. |
| Varints.TruncatedIff | larking/codec.go:107-122 | A varint is truncated exactly when no byte ends it and the tenth is missing. |
| Codecs.ReadVarint | larking/codec.go:107-122 | Reads until the buffer holds a whole varint, or to the reader's error. |
| Codecs.ReadBody | larking/codec.go:134-147 | The first `n` bytes to come are in the buffer, or the end came before. |
| Codecs.ProtoReadNext | larking/codec.go:106-149 | Frame, error and what is left depend only on the bytes to come: whole, cut, starved, malformed, oversize or negative size. |
| Codecs.ProtoWriteNext | larking/codec.go:153-160 | Writes the size as a varint and then the message. |
| Codecs.JsonReadNext | larking/codec.go:198-245 | The loop is the brace scanner over the bytes to come; no byte is lost. |
| Codecs.BodyReadNext | larking/codec.go:270-287 | The frame length is the number of new bytes up to the limit; no byte is lost. |
| Braces.LeadValue | larking/codec.go:217-242 | A nested JSON value leaves the scanner in the state it found it in. |
| Braces.ObjectFrame | larking/codec.go:195-245 | On a JSON object, with escapes and raw braces in strings, followed by any bytes, the scanner stops exactly at its last byte, or at the limit if it is longer. |
| Braces.CutObject | larking/codec.go:195-245 | On a proper front of an object the scanner wants more, or is at the limit. |
| Braces.StrayBrace | larking/codec.go:231-233 | A closing brace without an opening one is an error. |
| Braces.ObjectText | larking/codec.go:217-242 | The scanner stops behind `{"a":["\"}",1]}`. |
| HttpStream.StreamHTTP.constructor | larking/http.go:30-43 | A new stream has carried, received and sent nothing. |
| HttpStream.StreamHTTP.Keep | larking/http.go:174-179 | The frame goes out, the rest is carried, the end of the stream is remembered and not an error yet. |
| HttpStream.StreamHTTP.ReadMsg | larking/http.go:161-187 | Result and remaining bytes are a function of the bytes to come; with the JSON and body codecs all bytes returned so far, then the carried ones, are all bytes taken from the reader, and every frame is within the limit. |
| HttpStream.StreamHTTP.ReadAll | larking/mux.go:169-186 | A request that is not a stream is the whole body, or an error above the limit. |
| HttpStream.StreamHTTP.RecvMsg | larking/http.go:251-275 | With a body, one message of the stream, or an error if it does not decode; without, there is one empty message. The path's parameters are set by the first message only. |
| HttpStream.StreamHTTP.WriteMsg | larking/http.go:83-104 | The first message settles the headers; a stream is framed by its codec, and panics when the codec cannot stream; a single reply is limited and written with any codec. |
| Framing.DelimitedFrame | larking/codec.go:106-160 | A written message is read back from the front of any bytes. |
| Framing.SizedFrame | larking/codec.go:124-147 | What a size says, for every unsigned 64-bit value: not an int, too large, the whole message, or cut inside it. |
| Framing.CutFrame | larking/codec.go:107-147 | A front of a written message: without the whole size nothing is known, with it the message is cut. |
| Framing.MalformedFrame | larking/codec.go:124-127 | A size is malformed exactly when nine bytes do not end it and the tenth is above one. |
| Framing.ReceiveMessages | larking/http.go:161-187 | Reading a stream of size-delimited messages returns exactly them, in order, and leaves what follows, for any chunking and any buffers. |
| Framing.ReceiveCut | larking/codec.go:140-145 | Messages and then one that the end of the stream or a fault cuts off: inside the message the end is an error, inside its size an empty message is received. |
| Framing.ReceiveOversize | larking/codec.go:128-130 | Messages and then one above the limit: an error that takes nothing from the stream. |
| Framing.ReceiveBadSize | larking/codec.go:124-148 | A size that is not an int panics, a malformed one is an error. |
| Framing.ReceiveWhole | larking/mux.go:169-186 | A request that is not a stream: the whole body is the message, a body above the limit and a fault are errors. |
| Framing.ReceiveObjects | larking/http.go:161-187 | The same for concatenated JSON objects with white space between them. |
| Framing.ReceiveCutObject | larking/http.go:173-179 | Objects and then one that the end of the stream cuts off: an empty message is received, and a fault is an error. |
| Framing.ReceiveStray | larking/codec.go:231-233 | Objects and then a stray closing brace: an error that takes nothing from the stream. |
| Framing.ReceiveEnd | larking/http.go:174-177 | After the last frame one empty frame comes, then the end of the stream. |
| Framing.ReceivePiece | larking/http.go:173-179 | One frame of a raw body: as many bytes as the reader still has, up to the limit; what is carried never gets less. |
| Framing.ReceiveBody | larking/codec.go:270-287 | The frames of a raw body are its bytes in order, up to what is carried at the end. A body within the limit that starts with an empty buffer is received whole through every reader and buffer; so is every body that comes byte by byte. |
| Framing.CutBody | larking/codec.go:270-287 | Every body above the limit is cut at the limit by a reader that hands out all of it at once. |
| Framing.WholeBody | larking/codec.go:270-287 | Every body is received whole from a reader that hands out single bytes. |
| Framing.SendMessages | larking/http.go:83-104 | Writing messages appends their frames in order. |
| Framing.SendTexts | larking/http.go:83-104 | JSON and raw messages are written as they are, one after the other. |
| Framing.SendReply | larking/http.go:95-104 | A single reply is written as it is, with every codec, up to the limit. |
| Framing.EchoObjects | larking/codec.go:198-250 | Objects that are written and read back through any chunking come out unchanged. |
| Framing.Echo | larking/codec.go:106-160 | Messages that are written and read back through any chunking come out unchanged. |
| Serving.ReceiveFor | larking/http.go:251-275 | A message for the method of a rule: without a body in the rule or in the request there is one empty message and nothing is read; otherwise it is read from the body. |
| Selectors.SelectedExact | larking/mux.go:105-115 | The selected rules are exactly those whose place is a prefix of the name, shorter places first and then in the order of the configuration. |
| Selectors.PlaceOf | larking/mux.go:121-146 | A well-formed selector, with or without a final `*`, stands at its components. |
| Selectors.WellFormedChosen | larking/mux.go:105-146 | A well-formed selector, with or without a final `*`, selects exactly the names that its components are a prefix of. |
| Selectors.DocumentedIff | larking/mux.go:77-84 | That is what the comment promises if and only if the name does not start with the components, or is longer exactly when there is a final `*`. |
| Selectors.PutExact | larking/mux.go:122-144 | Setting one rule appends it at its place and nowhere else. |
| Selectors.CollectIsFlat | larking/mux.go:105-115 | The walk down the trie collects exactly the flat selection. |
| SelectorTree.RuleSelector.Child | larking/mux.go:133-141 | The child for a component, created if it is missing. |
| SelectorTree.Set | larking/mux.go:122-144 | The recursion for one rule, false exactly when the source panics on the selector. |
| SelectorTree.SetRules | larking/mux.go:117-148 | After a reset the trie holds each rule at its place. |
| SelectorTree.GetRules | larking/mux.go:105-115 | The rules on the way down the components of a name. |
| MuxState.Config.RulesOf | larking/mux.go:476-477 | The configured rules of a method are the flat selection for its name. |
| MuxState.CloneState | larking/mux.go:51-75 | A clone is new and has the same tree, connections and handlers. |
| MuxState.EmptyState | larking/mux.go:52-58 | The clone of the nil state is empty. |
| MuxState.ApplyRules | larking/mux.go:477-481 | A list of rules of one method on objects: tree and outcome are those of the value function, up to the first rule that is refused. |
| MuxState.AddMethodRules | larking/mux.go:461-488 | The implicit, the configured and the annotated rules of a method: tree and outcome are those of the value function, a panic when the implicit rule is refused. |
| MuxState.AppendHandler | larking/mux.go:456-491 | All rules of a method and then its handler; without all rules no handler. |
| MuxState.RulesEnlarge | larking/mux.go:476-488 | Rules that are all added keep every binding; the new bindings belong to the method. |
| MuxState.MethodEnlarges | larking/mux.go:456-491 | The same for a method with its implicit rule. |
| MuxState.ItemsEnlarge | larking/handler.go:67-119 | Registering a list of methods keeps every binding; each new one belongs to a method of the list. |
| MuxState.FilesEnlarge | larking/mux.go:591-603 | The same for the files of a connection. |
| MuxState.RulesListed | larking/mux.go:461-488 | The rules of a method: the one for its name, every configured one whose selector is for it, and the annotated one. |
| MuxState.EachGranted | larking/mux.go:461-488 | When rules are all accepted, each is bound; one whose place is free when its turn comes is bound to its own method, with its additional bindings; nothing else is new. |
| MuxState.UnclaimedIsFree | larking/mux.go:461-488 | A place is free when nothing is bound there before the registration and no earlier rule or additional binding is for it. |
| MuxState.ItemsCarry | larking/handler.go:67-119 | Registering a list of methods: each has a descriptor and all its rules are bound, in their order. |
| MuxState.FilesCarry | larking/mux.go:591-603 | The same for the files of a connection. |
| MuxState.FirstRefused | larking/handler.go:67-119 | The first method without a descriptor, or the first that is refused, ends the registration of a list. |
| MuxState.FirstFileRefused | larking/mux.go:591-603 | The first file that cannot be read, or the first whose methods are refused, ends the registration of the files. |
| MuxState.ImplicitIff | larking/mux.go:461-473 | The implicit rule of a method is added if and only if its name is a template without nested variables, the fields in it are known, and its node has no wildcard method. |
| MuxState.MethodPanicsIff | larking/mux.go:461-488 | Registering a method panics if and only if its implicit rule cannot be added or one of its own rules panics. |
| MuxState.RulesPanicIff | larking/mux.go:477-488 | A list of rules panics if and only if one of them does after those before it were added. |
| MuxState.RulesAddedIff | larking/mux.go:477-488 | A list of rules is added if and only if each is accepted when its turn comes. |
| MuxState.MethodDoneIff | larking/mux.go:461-488 | Registering a method succeeds if and only if its implicit rule can be added and each of its own rules is accepted when its turn comes. |
| MuxState.OneLetterName | larking/mux.go:461-473 | The name of a method of one letter is no template. |
| MuxState.ShortNamePanics | larking/mux.go:461-473 | Registering `/pkg.Service/M` panics. |
| MuxState.SecondTimePanics | larking/mux.go:461-473 | Registering a method again that was registered panics. |
| MuxState.StillServed | larking/mux.go:489 | If every bound method had a handler, and the methods of the new bindings have one and none lost one, every bound method has one. |
| MuxState.NowServed | larking/mux.go:754-772 | So it is after a list of methods was registered with a handler for each. |
| MuxState.AppendAll | larking/mux.go:754-772 | The loop over the methods: tree and outcome are those of the value function, and exactly one handler is added for each method. |
| MuxState.AppendFiles | larking/mux.go:591-603 | The loop over the files of a connection, likewise. |
| MuxState.DropOne | larking/mux.go:503-509 | The handlers of a method without one of them, in their order. |
| MuxState.DeleteNamed | larking/mux.go:512 | One deletion of the name as specified for `delRule`, or none because nothing has it; no other specific binding disappears. |
| MuxState.RemoveOne | larking/mux.go:500-517 | One handler goes; its method and one binding go with it exactly when it was the last. |
| MuxState.StarsStay | larking/mux.go:512 | A deletion keeps the wildcard method of a node that no specific method stands at or below. |
| MuxState.RemoveHandler | larking/mux.go:493-520 | The handlers of a connection go, and no others; each method that loses its last handler loses one specific binding as `delRule` deletes it, and nothing else disappears but what that deletion takes along. |
| MuxState.HeldFails | larking/mux.go:461-520 | After any removals, files cannot be registered again with a method whose wildcard method stays. |
| MuxState.EmptiedIff | larking/mux.go:500-517 | A method has no handler left exactly when it had none or lost its last one. |
| MuxState.RejoinServed | larking/mux.go:493-611 | After removals and then additions, every bound method has a handler if and only if no binding is left of a method that lost its last handler and is not added again. |
| MuxState.DesertedOrphans | larking/mux.go:512 | A wildcard method that stays, of a method that lost its last handler and is not added again, is such a binding. |
| MuxState.MatchServed | larking/mux.go:780-796 | A successful match on a state whose bound methods are served has a handler. |
| MuxState.PickMethodHandler | larking/mux.go:780-789 | One of the method's handlers, if there is any. |
| MuxState.Mux.Load | larking/mux.go:774-777 | A registration works on a clone of the published state. |
| MuxState.Mux.Store | larking/mux.go:778 | Publishing a state. |
| MuxState.Mux.RegisterService | larking/handler.go:42-123 | The outcome and the published tree are those of adding all methods of the service to the published ones, with one handler more for each; otherwise the published state is unchanged. All rules of each method are bound, and every bound method has a handler. |
| MuxState.Mux.WithService | larking/handler.go:67-119 | What the two loops do to the clone. |
| MuxState.Mux.AddConn | larking/mux.go:586-611 | The methods of all files and the connection itself are added to the clone. |
| MuxState.Mux.WithConn | larking/mux.go:522-611 | What a connection does to the clone: nothing when it is known with the same descriptors, additions only when it is new, removals and then additions when its descriptors changed. |
| MuxState.Mux.RegisterConn | larking/mux.go:354-376 | A new connection is published with all its methods, all their rules and a handler for each, or not at all; a known one with the same descriptors changes nothing; one with other descriptors is published as the removals and then the additions leave it, never when it brings a method whose wildcard method stays, and with a handler for every bound method exactly when no binding is orphaned. |
| MuxState.Mux.DropConn | larking/mux.go:378-385 | Answers whether the connection is known and leaves the published state as it is. |
| MuxState.Mux.Serve | larking/mux.go:780-796 | A match and the choice of a handler on one snapshot: the choice never fails after a successful match. |
| Negotiation.SkipSpace | larking/negotiate.go:88-96 | Skips exactly the leading white space. |
| Negotiation.ExpectTokenSlash | larking/negotiate.go:98-107 | The longest run of token characters and slashes, and the rest. |
| Negotiation.ExpectQuality | larking/negotiate.go:58-86 | The value of a quality and the text after it, or a negative number. |
| Negotiation.HeaderChars | larking/negotiate.go:44-54 | Which characters are white space and which make up tokens. |
| Negotiation.NumberDecimal | larking/negotiate.go:76-82 | A number is read back from its decimal digits, with any zeros in front. |
| Negotiation.NumberDigits | larking/negotiate.go:76-82 | The strings of k digits and the numbers below the k-th power of ten correspond. |
| Negotiation.Pow10Is | larking/negotiate.go:82 | The k-th power of ten is the least number with k + 1 digits. |
| Negotiation.WeightIs | larking/negotiate.go:83-85 | A weight that is written with k digits is that decimal fraction. |
| Negotiation.ParseItem | larking/negotiate.go:119-142 | One iteration of the inner loop. |
| Negotiation.ParseValue | larking/negotiate.go:119-143 | The inner loop, which shortens the text at each step. |
| Negotiation.ParseAccept | larking/negotiate.go:116-146 | All specifications of all header values, none with a negative quality. |
| Negotiation.FieldsRoundTrip | larking/negotiate.go:115-146 | Reading a printed header gives back its values and weights, whatever the white space. |
| Negotiation.BadWeight | larking/negotiate.go:126-135 | A value with something else than a weight behind its semicolon is dropped, with all after it. |
| Negotiation.DefaultWeight | larking/negotiate.go:124 | Without a weight the quality is one. |
| Negotiation.HigherWeight | larking/negotiate.go:176-212 | For the header `a/b;q=0.9, c/d;q=0.1` the first type is chosen, in any order of the offers. |
| Negotiation.Compare | larking/negotiate.go:183-208 | The switch replaces the best pair exactly by a better acceptable one. |
| Negotiation.ChooseType | larking/negotiate.go:176-212 | The offer of the best acceptable pair: highest quality, then least wildcard, then earliest offer; the default offer exactly when nothing is acceptable. |
| Negotiation.NegotiateContentType | larking/negotiate.go:171-212 | The same, from the header values. |
| Negotiation.BestIsUnique | larking/negotiate.go:171-175 | The best offer is unique. |
| Negotiation.BestMeans | larking/negotiate.go:171-175 | The best pair: highest quality, then least wild range, then earliest offer. |
| Negotiation.RangeMeans | larking/negotiate.go:188-208 | What the three kinds of media ranges accept. |
| Negotiation.NegotiateContentEncoding | larking/negotiate.go:152-169 | The earliest offer of the greatest weight; `identity` when none matches, nothing when the weight is zero. |
| Negotiation.OneEncoding | larking/negotiate.go:157-168 | A single weight: `*` is for every offer, another value for the offer that it names. |
| Odometer.AddOne | benchmarks/benchmain/main.go:670-681 | The in-place loop turns the last feature that has values and carries to the left. |
| Odometer.TurnedCounts | benchmarks/benchmain/main.go:666-681 | A turn is increment modulo the product of the non-zero radices. |
| Odometer.RankInjective | benchmarks/benchmain/main.go:604-616 | A combination is determined by its place in the enumeration. |
| Odometer.GenerateFeatures | benchmarks/benchmain/main.go:617-664 | The loop ends after exactly as many iterations as there are combinations, and visits them in order. |
| Odometer.VisitedOnce | benchmarks/benchmain/main.go:604-616 | Every combination is visited exactly once. |
| Odometer.RankOrder | benchmarks/benchmain/main.go:670-681 | The combinations come in lexicographic order: the last feature changes fastest. |

## Left out

- Protobuf reflection, and the decoding of captures: a method descriptor is its name and a map from field names to field paths, and decoding is an arbitrary function from field paths and texts.
- UTF-8 and the Unicode tables: texts are sequences of characters; which characters above ASCII are letters and numbers is given by arbitrary tables.
- Lexers.Lexer.Next: every character is one unit wide, where the source counts the bytes of its encoding; invalid encodings are not modelled.
- Lexers.Lexer.ErrUnexpected: error messages and positions are not modelled, only that there is an error.
- Verbs of custom patterns: upper-casing covers ASCII letters.
- PathCopy.CloneTree: the nil receiver is handled by the clone of the nil state.
- The debugging printers of the tree and the selectors: they would only add easy members.
- MuxState.CloneState: handler lists are values, so the sharing of their backing arrays between a state and its clone is not captured.
- The reflection exchange, descriptor building, locks and the network: a registration gets what they give as arguments, the mutex makes registrations one at a time.
- Streams.Reader.Read: a reader never returns data together with an error, and stalls finitely often.
- Codecs.ProtoReadNext: a size above the largest signed integer is returned as a negative one, as in the source; the allocation of very large buffers is not modelled.
- Pooled buffers: every call starts from an empty buffer of some capacity, whose reuse by other calls is not modelled.
- HttpStream.StreamHTTP.RecvMsg: unmarshalling is an arbitrary predicate on the frame; statistics are not modelled.
- HttpStream.StreamHTTP.WriteMsg: headers are reduced to the content type and whether they were sent.
- gRPC framing, gRPC-Web, websockets, gzip, proxying, timeouts and status codes: outside the parts modelled here.
- Negotiation.ExpectQuality: qualities are exact rationals; the rounding of floating point and the overflow of the counters after eighteen digits are not modelled.
- Odometer.GenerateFeatures: the configuration record built at each position is reduced to the position.
