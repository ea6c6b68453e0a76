# EmeraldCityPulse core, modelled in Dafny

EmeraldCityPulse looks up crime incidents reported near a Seattle address.
Two small pieces of its code hold pure logic, and this project models and
proves properties of both:

- **Marker classifier** (`getMarkerStyle` in the map component). It
  lower-cases an incident's category text. It looks for four violent keywords
  ("assault", "homicide", "weapon", "robbery") and then four property keywords
  ("theft", "burglary", "stolen", "property"), matching any substring. It
  returns one of three (colour, label) pairs: `#ff4444`/`Violent/Danger`,
  `#ffbb33`/`Property/Theft` or `#0099CC`/`Other/Proactive`.
- **Dataset query** (`get_data` in the backend). From an optional
  neighbourhood name and a limit (default 20) it builds the Socrata query
  parameters: `$limit`, `$order = "report_date_time DESC"`, and a `$where`
  clause `neighborhood = '<NAME>'` only when the name is non-empty. It then
  turns the reply into the list of records: the parsed body when the status is
  200, an empty list otherwise.

The query filters by neighbourhood only, and only when a name is given.
Only a non-200 status becomes an empty list; an exception raised by
`requests.get` propagates out of `get_data`.

Files:

- `text.dfy` (module `AsciiText`): ASCII `Lower`/`Upper`, and a reference
  meaning of substring occurrence (`Occurs`). `Contains` is the executable
  left-to-right search, proved equal to `Occurs`.
- `crime_map.dfy` (module `CrimeMap`): the classifier and its properties.
- `api.dfy` (module `Api`): an `Option` type for Python's `None`, the
  parameter map, the where-clause, a parser for it, the reply rule, and
  `GetData`, which takes the HTTP call as a function parameter `send`.

## Model

| member | source | states |
|---|---|---|
| AsciiText.Contains | frontend/src/components/CrimeMap.jsx:15 | `includes` holds exactly when the pattern occurs at some position of the text (reference definition `Occurs`) |
| AsciiText.OccursInTail | frontend/src/components/CrimeMap.jsx:15 | skipping a first position where the pattern does not start loses no occurrence, which is why the left-to-right scan is complete |
| AsciiText.MissingCharacter | frontend/src/components/CrimeMap.jsx:15 | a pattern cannot occur in a text that lacks one of its characters |
| AsciiText.Lower | frontend/src/components/CrimeMap.jsx:14 | `toLowerCase` changes at most the case of each ASCII letter, keeping the length, and leaves no ASCII capital |
| AsciiText.Upper | backend/api.py:34 | `upper()` changes at most the case of each ASCII letter, keeping the length, and leaves no ASCII small letter |
| AsciiText.SameCharFoldMeansSameLetter | frontend/src/components/CrimeMap.jsx:14 | two characters with the same lower-case or upper-case form are equal or the two cases of one letter |
| AsciiText.SameLowerMeansDifferOnlyInCase | frontend/src/components/CrimeMap.jsx:14 | strings that lower-case to the same string differ only in ASCII letter case (converse of LowerIgnoresCase) |
| AsciiText.SameUpperMeansDifferOnlyInCase | backend/api.py:34 | names that upper-case to the same string differ only in ASCII letter case (converse of UpperIgnoresCase) |
| AsciiText.LowerIgnoresCase | frontend/src/components/CrimeMap.jsx:14 | two strings that differ only in ASCII letter case lower-case to the same string |
| AsciiText.UpperIgnoresCase | backend/api.py:34 | two names that differ only in ASCII letter case upper-case to the same string |
| AsciiText.LowerIdempotent | frontend/src/components/CrimeMap.jsx:14 | lower-casing an already lower-cased string changes nothing |
| CrimeMap.MentionsAny | frontend/src/components/CrimeMap.jsx:15 | the chain of `includes` tests joined by `\|\|` is true exactly when some keyword of the list occurs in the text |
| CrimeMap.GetMarkerStyle | frontend/src/components/CrimeMap.jsx:13-22 | the result is always one of the three fixed styles; it is the violent style exactly when the lower-cased text contains a violent keyword; the property style exactly when it contains a property keyword and no violent one; the default style exactly when it contains neither |
| CrimeMap.StylesNeverMix | frontend/src/components/CrimeMap.jsx:16-21 | two results share a colour exactly when they share a label, so no result pairs one style's colour with another's label |
| CrimeMap.ViolentTakesPriority | frontend/src/components/CrimeMap.jsx:15-19 | text containing both a violent and a property keyword is classified violent |
| CrimeMap.CaseInsensitive | frontend/src/components/CrimeMap.jsx:14 | inputs that differ only in ASCII letter case get the same style |
| CrimeMap.DependsOnlyOnLowerCase | frontend/src/components/CrimeMap.jsx:14 | classifying the lower-cased text gives the same style as classifying the original |
| CrimeMap.EmptyIsOther | frontend/src/components/CrimeMap.jsx:21 | the empty category gets the default `Other/Proactive` style |
| CrimeMap.RobberyTheftIsViolent | frontend/src/components/CrimeMap.jsx:15-17 | "robbery theft" is classified violent although it also contains "theft" |
| CrimeMap.RobberyTheftMentions | frontend/src/components/CrimeMap.jsx:15-18 | "robbery theft" contains a keyword of each list |
| CrimeMap.WeaponsViolationIsViolent | frontend/src/components/CrimeMap.jsx:15-17 | "WEAPONS VIOLATION" is violent: "weapon" matches inside the longer word |
| CrimeMap.WeaponsViolationMentions | frontend/src/components/CrimeMap.jsx:14-15 | the lower-cased "WEAPONS VIOLATION" contains "weapon" |
| CrimeMap.PropertyDamageIsProperty | frontend/src/components/CrimeMap.jsx:18-20 | "PROPERTY DAMAGE" gets the `Property/Theft` style |
| CrimeMap.PropertyDamageMentions | frontend/src/components/CrimeMap.jsx:14-18 | the lower-cased "PROPERTY DAMAGE" contains "property" and no violent keyword |
| CrimeMap.StolenVehicleIsProperty | frontend/src/components/CrimeMap.jsx:18-20 | "STOLEN VEHICLE" gets the `Property/Theft` style |
| CrimeMap.StolenVehicleMentions | frontend/src/components/CrimeMap.jsx:14-18 | the lower-cased "STOLEN VEHICLE" contains "stolen" and no violent keyword |
| CrimeMap.LowerExamples | frontend/src/components/CrimeMap.jsx:14 | the example category texts lower-case as expected |
| Api.Truthy | backend/api.py:33 | the neighbourhood is falsy exactly when it is `None` or the empty string |
| Api.WhereClause | backend/api.py:34 | reading the text between the prefix `neighborhood = '` and the closing quote back out of the clause gives the upper-cased name, verbatim |
| Api.ParseWhereSound | backend/api.py:34 | any clause the reader accepts is exactly the fixed prefix, the name and a closing quote |
| Api.BuildParams | backend/api.py:11-34 | the keys are `$limit`, `$order` and, only for a non-empty name, `$where`; `$limit` is the limit argument; `$order` is always `report_date_time DESC`; the `$where` value is `neighborhood = '` + the upper-cased name + `'`, with no escaping |
| Api.DefaultQuery | backend/api.py:11-30 | with no arguments the query asks for 20 records, newest first, with no neighbourhood filter |
| Api.NeighborhoodCaseIrrelevant | backend/api.py:33-34 | names that differ only in letter case give the same parameter map |
| Api.EmptyNeighborhoodIsCityWide | backend/api.py:33 | an empty name gives the same map as no name (Python truthiness) |
| Api.QuoteNotEscaped | backend/api.py:34 | a quote inside the name is copied into the clause unescaped |
| Api.RecordsOf | backend/api.py:38-43 | status 200 returns the parsed body unchanged; any other status, other 2xx codes included, returns an empty list |
| Api.FailureLooksEmpty | backend/api.py:38-43 | a failed request returns the same value as a successful reply with no records |
| Api.GetDataCaseIrrelevant | backend/api.py:27-43 | names that differ only in letter case send the same query, so a server that answers a query the same way each time returns the same records |
| Api.GetDataFailingServiceIsEmpty | backend/api.py:38-43 | if the service never answers 200, every query yields the empty list |
| Api.GetData | backend/api.py:11-43 | the result is the reply body when the reply to the built parameter map has status 200, and an empty list otherwise |

## Left out

- The HTTP request (`requests.get`), its URL, the `X-App-Token` header read
  from the environment, and the `print` diagnostics. The network call is the
  parameter `send` of `Api.GetData`, and the reply is an abstract
  (status, parsed body) pair.
- `send` is one function of the parameter map, so the model assumes the
  dataset answers the same query the same way every time; a live dataset,
  its rate limiting and the token header read on each call do not.
- Exceptions raised by the HTTP call (a connection error, say) propagate
  out of `get_data` in the code. The model's `send` always returns a reply.
- The HTTP call is made without a timeout, so a stalled server makes
  `get_data` wait indefinitely. The model's `send` always returns, so this
  hang is not modelled.
- Api.RecordsOf: `r.json()` raising on a 200 reply whose body is not JSON is
  not modelled; the body is taken as already parsed.
- Api.BuildParams: only the documented argument types are modelled: a string
  or `None` for the neighbourhood, an integer for the limit. Other values,
  and how `requests` turns the limit into URL text, are not modelled.
- AsciiText.Lower, AsciiText.Upper: JavaScript's `toLowerCase` and Python's
  `upper()` follow full Unicode case mapping (for example `'ß'.upper()` is
  `'SS'`). The model changes only the 26 ASCII letters, and every other
  character is kept as it is. Matching is unaffected for ASCII category text.
- CrimeMap.GetMarkerStyle: a category that is not a string (`null` or
  `undefined`) makes `toLowerCase` throw; the model's input is always a string.
- The Flask apps and routes (`app.py`, `backend/home.py`), CORS setup, and
  the wall-clock `/api/time` route: server plumbing and a clock.
- The React components: `App`, `RecenterMap`, the map, legend and markers.
  These are UI state, `fetch` and Leaflet rendering.
- `main_search`: imported at `app.py:3` and not defined in
  `backend/api.py`; it is not part of this model.
- The pytest file, which checks only that `/` answers 200.
