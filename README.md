# ai-map-styler core in Dafny

This project models the two pieces of logic in ai-map-styler that turn a
five-role colour theme (water, land, roads, buildings, labels) into a styled
vector map.

- **Layer classification and colour application** (`script.js`).
  `findLayersByKeyword` selects the layers of the loaded style whose lowercased
  id or source-layer contains a keyword. `applyColorToLayer` writes a colour
  into the paint property that fits the layer's type, inside one try/catch.
  `applyStyleObject` walks the keyword table role by role, colours every
  selected layer, and then copies the colours into the colour pickers.
- **Style normalisation** (`netlify/functions/generate-style.js`). The
  serverless handler reads the language model's reply, either an object used
  as-is or text that is parsed as JSON. It merges each role as override, else
  model value, else a fixed default. It answers 200 with `{ style }` or 500.

Files:

- `wrappers.dfy`: `Option`.
- `roles.dfy`: the roles, the order in which they are applied, and their property names.
- `classifier.dfy`: layers, ASCII lowercasing, `includes`, the keyword table,
  and the filter of `findLayersByKeyword`.
- `paint.dfy`: what `applyColorToLayer` writes into one paint table, as a
  list of attempted writes cut short by the first write that throws.
- `map_styling.dfy`: the live map as a class `LiveMap`. It holds the layers,
  whether a style is loaded, and the set of (layer id, property) pairs whose
  `setPaintProperty` throws. It has the imperative `ApplyColorToLayer`,
  `ColourMatched` (the `forEach` over matched layers) and `ApplyStyleObject`.
  Each is proved against the functions `Repainted` and `Styled` and the
  lemmas about them.
- `generate_style.dfy`: JSON values with JavaScript truthiness, the reply
  shapes, the merge, and the handler's outcome.

The model follows the code. In three places the documented intent differs
from it:

- The comment at `generate-style.js:44` says "Ensure hex format", but nothing
  checks the format. A truthy non-hex value passes through
  (`NonHexPassesThrough`). Hex inputs give hex outputs only because the
  defaults are hex (`HexPreserved`).
- An unparsable reply, or a `null` reply, does not fall back to the defaults.
  `JSON.parse` throws, or `style.name` throws on `null`, and the catch answers
  500 (`BadContentIsError`).
- A layer whose write throws part-way through is not left untouched. Writes
  made before the throw stay. The catch only stops the rest of that layer's
  dispatch: the throwing write and every later one change nothing
  (`ChannelPaint`, `SymbolPaint`, `OtherPaint`).

## Model

| member | source | states |
|---|---|---|
| Classifier.Includes | script.js:41 | `String.prototype.includes`: whether the keyword occurs in the string, scanned from the left |
| Classifier.IncludesIffOccurs | script.js:41 | `includes`, as a left-to-right scan, is true exactly when the keyword occurs at some position of the string |
| Classifier.Keywords | script.js:88-94 | the `targets` table: the keywords of each role |
| Classifier.KeywordsLowerCase | script.js:88-94 | every keyword is non-empty and already lower case, so each can match the lowercased names |
| Classifier.Matches | script.js:39-41 | the filter's test: the lowercased id or the lowercased source-layer (missing read as "") includes some keyword |
| Classifier.MatchingLayers | script.js:38-42 | the filter result is no longer than the input and holds exactly the input layers whose lowercased id or source-layer (missing read as "") contains a keyword |
| Classifier.MatchingLayersAppend | script.js:38-42 | the filter distributes over concatenation, so it keeps the original order and adds nothing |
| Classifier.MatchingLayersUniqueIds | script.js:38-42 | a selection from layers with unique ids has unique ids, so no layer is selected twice |
| Classifier.MatchingNoneIff | script.js:38-42 | the filter is empty exactly when no layer matches |
| Classifier.MatchesIgnoresPaint | script.js:38-42 | whether a layer is selected depends on its id and source-layer, never on its paint |
| Classifier.ParkLabelMatchesTwoRoles | script.js:89-93 | a layer `park_label` is selected by both the land keywords (via `park`) and the labels keywords (via `label`) |
| Paint.Attempts | script.js:50-76 | the writes applyColorToLayer issues, in order, for each layer type, with presence read from the layer's paint |
| Paint.AttemptsShape | script.js:50-76 | the planned writes go to distinct properties, each carries the colour except the #ffffff33 halo write, and symbol and fallback layers plan writes only to properties they already have |
| Paint.WriteUntilFailure | script.js:47-79 | the writes run in order inside one try/catch: the first that throws, and every later one, is skipped, while earlier writes stay |
| Paint.WriteKeys | script.js:47-79 | running writes removes no property and adds only properties the writes name |
| Paint.Painted | script.js:46-80 | a layer's paint table after applyColorToLayer: its planned writes, cut short at the first throwing write |
| Paint.PaintedKeys | script.js:46-80 | no property is ever removed; background, fill and line layers gain at most their channel property; symbol and other layers gain none |
| Paint.ChannelPaint | script.js:50-55 | background, fill and line layers get exactly their one channel property set to the colour, with nothing else changed; a throwing write leaves the table as it was |
| Paint.SymbolPaint | script.js:56-67 | symbol layers create no property; text-color takes the colour when present, else icon-color; icon-color is untouched when text-color exists; the halo becomes #ffffff33 when present unless the write before it threw; all other properties are kept; a throwing text-color or icon-color write leaves the whole table unchanged, and a throwing halo write leaves the halo as it was |
| Paint.OtherPaint | script.js:68-76 | other types create no property; fill-color and line-color are overwritten only when present (line-color only if the fill-color write did not throw); a layer with neither is unchanged; a throwing fill-color write leaves the whole table unchanged, and a throwing line-color write leaves line-color as it was |
| Paint.RewriteSameKeys | script.js:47-79 | re-running writes to the same distinct properties fails at the same point and overwrites the earlier run completely |
| Paint.PaintedOverwrite | script.js:46-80 | colouring a layer with a and then b leaves what colouring it with b alone leaves; with a == b, applyColorToLayer is idempotent |
| MapStyling.LiveMap.GetPaintProperty | script.js:59 | reads the property of the layer with that id, and is `undefined` (None) when the property is absent or no layer has that id |
| MapStyling.LiveMap.SetPaintProperty | script.js:51 | succeeds exactly when the (layer, property) pair does not throw; on success that property of the layer with that id is set and nothing else changes; on failure nothing changes |
| MapStyling.LiveMap.ApplyColorToLayer | script.js:46-80 | the layers afterwards are the old layers with only the layer of that id repainted as its type's writes, cut short at the first throwing write; ids stay unique |
| MapStyling.LiveMap.PaintChannel | script.js:50-55 | the background, fill and line branches produce exactly the repainted layers |
| MapStyling.LiveMap.PaintSymbol | script.js:56-67 | the symbol branch, with its presence tests read through getPaintProperty, produces exactly the repainted layers |
| MapStyling.LiveMap.PaintOther | script.js:68-76 | the fallback branch, with its presence tests read through getPaintProperty, produces exactly the repainted layers |
| MapStyling.FindLayersByKeyword | script.js:35-43 | no layers when there is no map or no style is loaded; otherwise exactly the filter over the live layers |
| MapStyling.Styled | script.js:96-105 | the layers after all five role passes, in the order water, land, roads, buildings, labels |
| MapStyling.StyledKeepsLayers | script.js:96-105 | styling keeps the layer list: the same length, ids and types, and unique ids stay unique |
| MapStyling.StyledLayer | script.js:96-105 | applying roles changes only a layer's paint, never its id, type or source-layer |
| MapStyling.ColourMatched | script.js:100-104 | after the forEach, every layer the keywords select is recoloured once, by its own writes, and every other layer is unchanged; ids stay unique |
| MapStyling.NoneMatchStyled | script.js:100-103 | whether a role matches no layer does not depend on what earlier roles painted |
| MapStyling.ApplyRole | script.js:97-104 | a role without a non-empty colour changes nothing and warns nothing; otherwise it warns exactly when no live layer matches (or no style is loaded), and every matched layer gets one role pass |
| MapStyling.ApplyRoles | script.js:96-105 | after the role loop the layers are the five role passes in order water, land, roads, buildings, labels (unchanged if no style is loaded), and the warned roles are exactly the coloured roles matching no layer, in that order |
| MapStyling.SyncPickers | script.js:108-112 | the picker loop leaves each existing picker with its role's colour when the style sets a non-empty one, and its old value otherwise |
| MapStyling.ApplyStyleObject | script.js:82-115 | with no map nothing happens; otherwise the layers become the five role passes in order (unchanged if no style is loaded), the roles with a colour and no matching layer are returned as warnings, and the pickers are synced |
| MapStyling.SyncedPickersAll | script.js:108-112 | the loop's step-by-step picker updates end in the map where every existing picker shows its role's colour when the style sets a non-empty one and keeps its value otherwise; no picker is added |
| MapStyling.SyncedUpToAt | script.js:108-112 | after j steps of the picker loop, exactly the pickers of the roles already visited are synced; no picker is added or removed |
| MapStyling.LastRoleWins | script.js:88-105 | a layer ends as the original recoloured with the colour of the last role in order water, land, roads, buildings, labels that has a colour and selects it, or unchanged when there is none |
| MapStyling.StyledIdempotent | script.js:96-105 | applying the same style twice gives the same layers as applying it once, even when some writes throw |
| MapStyling.FailureIsolation | script.js:77-105 | a layer with no throwing property ends exactly as if no write had thrown anywhere |
| MapStyling.NoColourNoChange | script.js:97-98 | a style whose colours are all missing or empty leaves every layer unchanged |
| MapStyling.ThreeRoadsOneFailing | script.js:100-104 | of three road layers where the middle one throws, the first and third take the roads colour and the middle keeps its paint |
| GenerateStyle.ContentStyle | netlify/functions/generate-style.js:39-42 | content of type object (null included) is used as-is; anything else goes through JSON.parse, which throws on undefined and on bad text |
| GenerateStyle.Handler | netlify/functions/generate-style.js:4-66 | the handler's outcome: 500 for a missing key, a request body that does not parse or is null, a failed model call, bad or null content; otherwise 200 with the merged style |
| GenerateStyle.Merge | netlify/functions/generate-style.js:45-52 | the merge yields a style exactly when neither the reply style nor the overrides is null; otherwise reading a property throws |
| GenerateStyle.ResolvePrecedence | netlify/functions/generate-style.js:47-51 | for each role the colour is the truthy override, else the truthy model value, else that role's fixed default |
| GenerateStyle.OverrideWins | netlify/functions/generate-style.js:47-51 | a truthy override gives the same colour whatever the model returned |
| GenerateStyle.NameFromModelOnly | netlify/functions/generate-style.js:46 | the name is the model's truthy name, else "AI style", and does not depend on the overrides |
| GenerateStyle.MergeComplete | netlify/functions/generate-style.js:45-52 | the name and every role's colour in the result are truthy, so none is empty |
| GenerateStyle.StyleJsonKeys | netlify/functions/generate-style.js:54-57 | the returned style object has exactly the keys name, water, land, roads, buildings and labels |
| GenerateStyle.ExtraFieldsDropped | netlify/functions/generate-style.js:45-52 | fields of the model's object other than those six do not affect the result |
| GenerateStyle.NonObjectReplyGivesDefaults | netlify/functions/generate-style.js:45-52 | a non-null reply that is not an object, with no overrides, yields "AI style" and the five default colours |
| GenerateStyle.DefaultsAreHex | netlify/functions/generate-style.js:47-51 | every fixed default is `#` and six hex digits |
| GenerateStyle.HexPreserved | netlify/functions/generate-style.js:44-52 | when every supplied override and model colour is hex, every output colour is hex |
| GenerateStyle.NonHexPassesThrough | netlify/functions/generate-style.js:44-52 | no format check: a truthy non-hex model colour reaches the result unchanged |
| GenerateStyle.EmptyOverrideIgnored | netlify/functions/generate-style.js:47 | an empty-string override counts as absent and the model's value is used |
| GenerateStyle.MissingKeyFirst | netlify/functions/generate-style.js:6-8 | without the API key the answer is 500 whatever the request and the reply |
| GenerateStyle.HandlerOkIff | netlify/functions/generate-style.js:5-64 | the handler answers 200 exactly when the key is present, the request body parses to non-null, the model call returns, and its content yields a non-null style; the style is then the merge of the body's overrides (or {}) and that content, and the 200 body is `{ style }` with exactly the six style keys |
| GenerateStyle.BadContentIsError | netlify/functions/generate-style.js:39-46 | null content, missing content, or text that does not parse gives 500, never a style of defaults |
| GenerateStyle.StructuredMatchesText | netlify/functions/generate-style.js:39-42 | object content and text that parses to the same object give the same answer |
| GenerateStyle.WorkedMerge | netlify/functions/generate-style.js:45-52 | the merge of overrides {labels: "#000000"} with {"water": "#111111", "land": "#222222"} is "AI style", #111111, #222222, #ff85c1, #f0e5ff, #000000 |
| GenerateStyle.WorkedExample | netlify/functions/generate-style.js:45-52 | overrides {labels: "#000000"} with reply {"water": "#111111", "land": "#222222"} give name "AI style", the model's water and land, the default roads and buildings, and the overridden labels |

## Left out

- Map creation, `map.on('load')` and the internals of `getStyle()` (script.js:10-22) are a foreign library. The map is a list of layers with paint tables, plus a flag saying whether a style is loaded.
- MapLibre's own validation of property names and values is not modelled. Which writes throw is a set of (layer id, property) pairs, fixed for the map's lifetime.
- Layout properties and the style's other sections (sources, sprites, glyphs) are not modelled. Only `id`, `type`, `source-layer` and `paint` of each layer are kept.
- Layers whose `id` is missing are read as having id "". MapLibre keeps ids unique, and the model assumes that (`LiveMap.Valid`).
- Classifier.ToLower: lowercases ASCII letters only, not the whole of Unicode.
- DOM work is UI: `readPickers`, the status text, `wireUI` with its buttons and `alert`, and `downloadCurrentStyle`. The picker sync is a map update, where a missing key is a missing picker element.
- `console.warn` and `console.error` are logging. The "No layers matched" warnings are the role list that `ApplyStyleObject` returns. The "applyColorToLayer failed" warning is dropped.
- MapStyling.ApplyStyleObject: style colours are strings, and a falsy colour is the empty string or a missing key. Non-string colour values are not modelled. The `style.name` shown in the status text is not modelled.
- The `fetch` to the function and the handling of its response (script.js:144-154) are network I/O.
- The OpenAI client, the prompts, the model name, `temperature` and `max_tokens` (generate-style.js:14-36) are an external service. Its reply is a parameter: content, or None when the call throws.
- `JSON.parse` is a parameter `parse: string -> Option<Json>`, where None means it threw. The exact text of the `error` message in a 500 body is not modelled, only the reason.
- Environment variables are a single "API key present" boolean.
- JSON numbers are integers: floating point, NaN and -0 are not modelled. Truthiness on integers (0 is falsy) is kept.
- `Content` has no case for an array reply. `typeof [] === 'object'`, so an array would be used as-is, and every role would take its override or default. This is the case `NonObjectReplyGivesDefaults` covers with `JArr`.
- Concurrency and re-entrancy (for example, repeated clicks on the AI button) are not modelled. The code has no guard.
