# Vacation planner catalog tools, modelled in Dafny

The vacation planner is a conversational agent. A language model asks the
traveller for a destination, a nightly hotel budget and their interests,
then calls three tools. Two of those tools are plain lookups in fixed
catalogs, and they are what this project models:

- `find_hotels(city, max_price=500)` lower-cases the city and looks it up
  among Paris, London and Tokyo, three hotels each. It keeps the hotels
  whose price is at most the budget, in catalog order. It answers with that
  list, or with one of two errors: the city is unknown, or nothing is
  within budget.
- `suggest_activities(city, interests)` lower-cases the city and looks it
  up in a `city -> {tag -> description}` catalog. For each interest, in the
  caller's order, it lower-cases the interest and keeps that tag's
  description. Unmatched interests are dropped and repeats are kept. It
  answers with the descriptions, or with one of two errors: the city is
  unknown, or no interest matched.

Files:

- `strings.dfy` (module `Strings`): the Python string operations the tools
  rely on. These are `str.lower()`, `str.title()` (the city as echoed in
  error messages) and `str(int)` (the budget in the "no hotels" message).
- `vacation_tools.dfy` (module `VacationTools`): the result type, both
  catalogs, both tools and their properties.
- `scenarios.dfy` (module `Scenarios`): concrete calls worked out against
  the catalogs.

A tool's `{"status": ..., ...}` dictionary is the datatype
`ToolResult<T> = Success(value) | Error(kind, message)`. The source tells
its two errors apart only by the message text. The model names the failing
branch in `kind` (`UnknownCity` or `NoneMatched`), keeps the exact message
text as well, and proves that the text alone determines the kind. Both
tools are pure functions, so calling one twice with the same arguments
gives the same answer by construction.

## Model

| member | source | states |
|---|---|---|
| `VacationTools.FindHotels` | tools/vacation_tools.py:33-50 | the "not available" error exactly when the lower-cased city is not paris, london or tokyo; the "no hotels" error exactly when the city is known and every one of its hotels costs more than the budget; success never carries an empty list, and its list is an order-preserving selection of that city's catalog holding exactly the hotels within budget; each error carries its message built from the title-cased city (and the budget) |
| `VacationTools.WithinBudget` | tools/vacation_tools.py:45 | the filter result is a subsequence of the catalog list, every record in it is within budget, every record of the list within budget is in it, and its length is the number of affordable records |
| `VacationTools.WithinBudgetUnique` | tools/vacation_tools.py:45 | any order-preserving selection of affordable records that has as many elements as there are affordable records is the filter result, so nothing is added, dropped or reordered |
| `VacationTools.WithinBudgetEmpty` | tools/vacation_tools.py:45-46 | the filter is empty exactly when every record costs more than the budget |
| `VacationTools.AffordableSubseqBound` | tools/vacation_tools.py:45 | an order-preserving selection of affordable records has at most as many elements as there are affordable records |
| `VacationTools.WithinBudgetMonotone` | tools/vacation_tools.py:45 | a larger budget keeps every record a smaller budget kept, in the same order |
| `VacationTools.FindHotelsExact` | tools/vacation_tools.py:37-48 | for a known city, any non-empty order-preserving selection of its affordable hotels that has all of them is exactly the success value |
| `VacationTools.FindHotelsMonotone` | tools/vacation_tools.py:33-48 | raising the budget turns no success into an error and removes no hotel from the list |
| `VacationTools.FindHotelsIgnoresCase` | tools/vacation_tools.py:43-50 | two cities that lower-case alike (letters differing only in ASCII case) give identical results, error text included |
| `VacationTools.HotelMessagesTellKinds` | tools/vacation_tools.py:46-50 | the "not available" and "no hotels" messages never coincide, whatever the cities and budget |
| `VacationTools.NoHotelsMessageBudget` | tools/vacation_tools.py:47 | the budget written in the "no hotels" message reads back as the budget asked for |
| `VacationTools.HotelCatalog` | tools/vacation_tools.py:37-41 | the hotel table covers exactly paris, london and tokyo, with three records each |
| `VacationTools.ActivityCatalog` | tools/vacation_tools.py:56-60 | the activity table covers exactly paris, london and tokyo, and every city has a "food" tag |
| `VacationTools.NoHotelsMessage` | tools/vacation_tools.py:47 | the text is "No hotels found in ", then the title-cased city (which lower-cases to the caller's city), then exactly " under $", the budget's decimal text and a full stop |
| `VacationTools.HotelsUnavailableMessage` | tools/vacation_tools.py:50 | the text is "Hotel information not available for ", then the title-cased city (which lower-cases to the caller's city), then a full stop, and nothing else |
| `VacationTools.NoActivitiesMessage` | tools/vacation_tools.py:66 | the text is "Couldn't find activities for your interests in ", then the title-cased city (which lower-cases to the caller's city), then a full stop, and nothing else |
| `VacationTools.ActivitiesUnavailableMessage` | tools/vacation_tools.py:69 | the text is "Activity information not available for ", then the title-cased city (which lower-cases to the caller's city), then a full stop, and nothing else |
| `VacationTools.Suggestions` | tools/vacation_tools.py:64 | at most one description per interest; every description comes from the city's tags; the list is empty exactly when no interest lower-cases to a tag |
| `VacationTools.SuggestionsAppend` | tools/vacation_tools.py:64 | suggesting for a concatenation of interest lists is concatenating the suggestions, so each interest contributes independently and in input order |
| `VacationTools.SuggestionAt` | tools/vacation_tools.py:64 | a matching interest at index i contributes its description at the position right after the descriptions of the interests before i |
| `VacationTools.SuggestionsIgnoreCase` | tools/vacation_tools.py:64 | interests that lower-case alike, position by position, give the same suggestions |
| `VacationTools.SuggestActivities` | tools/vacation_tools.py:52-69 | the "not available" error exactly when the lower-cased city is not a known city; the "couldn't find" error exactly when the city is known and no interest lower-cases to one of its tags (an empty interest list included); success carries a non-empty list no longer than the interests, equal to the per-interest descriptions in input order; each error carries its message built from the title-cased city |
| `VacationTools.SuggestActivitiesIgnoresCase` | tools/vacation_tools.py:62-69 | two cities that lower-case alike (letters differing only in ASCII case) give identical results, error text included |
| `VacationTools.ActivityMessagesTellKinds` | tools/vacation_tools.py:65-69 | the "couldn't find" and "not available" messages never coincide |
| `VacationTools.NoInterestsNoActivities` | tools/vacation_tools.py:64-66 | an empty interest list never succeeds |
| `Strings.Lower` | tools/vacation_tools.py:43 | lower-casing keeps the length, maps every character by itself and leaves no upper-case letter |
| `Strings.Title` | tools/vacation_tools.py:50 | title-casing keeps the length and changes only the case of letters: a letter ends up upper case exactly when it starts a word (it is first, or follows a character that is not a letter), and every other character is left as it is |
| `Strings.TitleSameLower` | tools/vacation_tools.py:47 | strings that lower-case alike title-case alike |
| `Strings.TitleOfLowerWord` | tools/vacation_tools.py:69 | a lower-case word is title-cased by capitalising its first letter |
| `Strings.Decimal` | tools/vacation_tools.py:47 | the budget's text is non-empty, starts with a minus sign exactly when the budget is negative, and is decimal digits after that sign, with no leading zero; the budget 0 is written "0" |
| `Strings.DecimalRoundTrip` | tools/vacation_tools.py:47 | the decimal rendering of an integer budget reads back as that integer |
| `Scenarios.TokyoUnder100` | tools/vacation_tools.py:40-48 | Tokyo with budget 100 gives exactly the APA Hotel Shinjuku at 90 |
| `Scenarios.LondonDefaultBudget` | tools/vacation_tools.py:33-48 | London with the default budget 500 gives the Marriott and St. Giles, without The Savoy at 800 |
| `Scenarios.ParisShouted` | tools/vacation_tools.py:38-48 | "PARIS" and "paris" with budget 300 give the same two hotels |
| `Scenarios.ParisUnder100` | tools/vacation_tools.py:43-47 | Paris with budget 100 is the "No hotels found in Paris under $100." error |
| `Scenarios.AtlantisHotels` | tools/vacation_tools.py:49-50 | Atlantis is the "Hotel information not available for Atlantis." error |
| `Scenarios.LondonHistoryArtCuisine` | tools/vacation_tools.py:58-67 | London with history, art, cuisine gives the Tower of London and the Tate Modern, in that order, and drops cuisine |
| `Scenarios.TokyoFoodTwice` | tools/vacation_tools.py:59-67 | Tokyo with "Food" and "FOOD" gives the Tsukiji description twice |
| `Scenarios.AtlantisActivities` | tools/vacation_tools.py:68-69 | Atlantis is the "Activity information not available for Atlantis." error |

## Left out

- `get_weather` (tools/vacation_tools.py:5-31): it reads an environment variable and makes two HTTP calls. Its result depends on a remote service, and the temperature it reports is floating point.
- The `print` calls at the top of each tool (tools/vacation_tools.py:35 and :54): console output. They do not change a returned value, but the one in `find_hotels` can raise an exception (next line).
- VacationTools.FindHotels: does not model the ValueError CPython raises when it converts an integer of more than 4300 digits to text. That limit is the interpreter's default and can be configured. The f-string on line 35 converts `max_price` on every call, so such a budget fails before any lookup; line 47 would fail the same way. The model returns the lookup result for every integer budget.
- runtime/main.py, agents/vacation_planner.py and weather_bot_tutorial.py: the session runner, the agent declaration and the process setup. They are thin calls into the Google ADK library, whose code is not part of this model.
- Strings.Lower: maps only the ASCII letters A-Z. Python's `str.lower()` applies the full Unicode case mapping; for instance KELVIN SIGN (U+212A) lower-cases to `k`, so Python finds "TO\u212aYO" in the catalog and this model does not. For the same reason, `FindHotelsIgnoresCase` and `SuggestActivitiesIgnoresCase` cover only cities whose letters differ in ASCII case. In Python, "\u212a" (KELVIN SIGN) and "k" lower-case alike but are echoed in error messages as "\u212a" and "K".
- Strings.Title: treats only ASCII letters as cased. Python's `str.title()` also capitalises accented and other non-ASCII letters, so a city such as "münchen" is echoed differently in an error message.
- The tools do not check their argument types. A `max_price` that is a float, or an `interests` value that is a string rather than a list, behaves differently in Python. The model types `max_price` as an unbounded integer and `interests` as a sequence of strings.
