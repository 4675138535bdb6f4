# SmartAgri AI rule engine in Dafny

SmartAgri AI is a single-page Streamlit dashboard for Indian farmers. Almost
all of it is page layout and randomly generated illustration; inside it sits
a small deterministic rule engine, and that engine is what this project
models and proves things about:

- **Chatbot matcher** (`chatbot.dfy`, with `text.dfy`). The question is lower-cased
  and scanned against an ordered knowledge table of seven keywords. The first
  keyword that occurs as a substring wins. Only when none occurs are the greeting
  words `hello`/`hi`/`namaste` tried, then `help`, then a fixed fallback answer.
  `Reply` is the specification. `GetChatbotResponse` is the source's loop with its
  early return, proved equal to `Reply`.
- **Crop recommendation** (`crops.dfy`). The soil's ordered crop list is filtered by a
  temperature band (above 35 keeps heat-tolerant crops, below 20 cold-tolerant ones),
  then by season. The season test looks for the words "Kharif" and "Rabi" in the
  season label, and Zaid does no filtering. When nothing survives, the first five
  soil crops are used. The result is cut to five. Every stage is an order-preserving
  filter, so the result is a duplicate-free subsequence of the soil's list.
- **Loan calculator** (`loan.dfy`). The 3-point subsidy gives the effective rate. The
  EMI (equated monthly instalment) is the amortisation formula, or amount / tenure
  at a zero rate. Total and interest follow from the EMI. Arithmetic is exact
  (`real`), and `(1 + r)^n` is a recursive `Pow`. As an independent reference the
  month-by-month outstanding balance is defined, and the EMI is proved to bring it
  to exactly zero at the end of the tenure.
- **Fertilizer calculator** (`fertilizer.dfy`). N, P and K deficits use per-crop
  coefficients (Rice, Wheat, or a default row), clamped at zero. They are converted
  to kilograms of urea, DAP and MOP.
- **Session** (`session.dfy`). A class holding the chat log, the farmer profile and
  the "profile complete" flag, with the send, clear-chat, save-profile and
  clear-profile transitions, plus the experience badge.

`options.dfy` holds the `Option` type used by the matcher and the session.

The soil table has seven entries, Laterite included (app.py:409-417). The season
is the radio label ("Kharif (Monsoon)", ...) tested by substring, as in the code.

Two behaviours of the source are worth knowing. `hi` is matched as a substring, so
a question containing "this" or "which" and no keyword gets the greeting even when
it asks for "help" (`GreetingBeforeHelp`). The badge is computed from the
experience slider's current value, not from the saved profile.

## Model

| member | source | states |
|---|---|---|
| `Text.Lower` | app.py:97 | `str.lower` keeps the length and lowers each ASCII capital, leaving every other character as it is |
| `Text.Contains` | app.py:101 | the executable substring test is true exactly when the keyword occurs at some offset of the text (Python `in` on strings) |
| `Chatbot.FirstMatch` | app.py:100-102 | returns the index of the earliest table entry whose keyword occurs, and returns none exactly when no keyword occurs |
| `Chatbot.HasGreeting` | app.py:105 | true exactly when one of "hello", "hi", "namaste" occurs in the text, as `any(g in user_lower ...)` |
| `Chatbot.Reply` | app.py:96-112 | every input gets an answer, and it is one of the fixed non-empty texts (a table response, the greeting, the help text or the fallback) |
| `Chatbot.GetChatbotResponse` | app.py:96-112 | the loop with early return, then the greeting, help and fallback tests, returns exactly the specified reply |
| `Chatbot.EarliestKeywordWins` | app.py:97-102 | when keyword i is the earliest to occur in the lower-cased input, the reply is its response, whatever greeting or "help" also occurs |
| `Chatbot.GreetingBeforeHelp` | app.py:105-106 | with no keyword present, any greeting word gives the greeting reply, before "help" is considered |
| `Chatbot.HelpAfterGreeting` | app.py:108-110 | with no keyword and no greeting word, "help" gives the capability reply |
| `Chatbot.FallbackWhenNothingMatches` | app.py:112 | with nothing recognised the fixed fallback is returned |
| `Chatbot.ReplyIgnoresCase` | app.py:97 | an input and its lower-cased form get the same answer |
| `Chatbot.RiceQuestionWithGreeting` | app.py:97-106 | "Hello, how do I grow rice?" gets the rice answer, not the greeting |
| `Crops.Filter` | app.py:423 | the list comprehension is a subsequence of its input, and a name is in the result exactly when it is in the input and in the allowed list |
| `Crops.FilterKeepsEveryCopy` | app.py:423 | every allowed name is kept as many times as it occurs in the input, and no other name is kept |
| `Crops.Take` | app.py:436-438 | the slice `[:n]` is the prefix of length min(n, len) of its input: same entries at the same positions, hence a subsequence, non-empty for a non-empty input |
| `Crops.CropsForSoil` | app.py:419 | `crop_data.get(soil, [])` is the soil's own list, of at least five distinct crops, for the seven listed soils, and empty for any other soil |
| `Crops.TemperatureFilter` | app.py:421-425 | above 35 degrees exactly the heat-tolerant crops of the list remain, below 20 exactly the cold-tolerant ones, from 20 to 35 the list is kept; always a subsequence of the input |
| `Crops.SeasonFilter` | app.py:427-433 | a label containing "Kharif" keeps exactly the Kharif crops; otherwise one containing "Rabi" keeps exactly the Rabi crops; any other label (Zaid) keeps the list; always a subsequence of the input |
| `Crops.SoilTableWellFormed` | app.py:409-417 | each soil's candidate list has at least five crops and no duplicates |
| `Crops.FilteredIsSubsequence` | app.py:419-433 | after the temperature and season stages the list is still a subsequence of the soil's list |
| `Crops.Recommend` | app.py:419-438 | the result has at most 5 entries, has no duplicates, keeps the soil list's order, and is non-empty exactly when the soil is one of the seven known keys |
| `Crops.FallbackToSoilList` | app.py:435-436 | when the filters leave nothing, the result is the first five crops of the soil |
| `Crops.NoFallbackKeepsFiltered` | app.py:435-438 | otherwise the result is the first five survivors of the filters |
| `Crops.HotRecommendsHeatTolerant` | app.py:422-423 | above 35 degrees, without fallback, every recommended crop is heat-tolerant |
| `Crops.ColdRecommendsColdTolerant` | app.py:424-425 | below 20 degrees, without fallback, every recommended crop is cold-tolerant |
| `Crops.KharifRecommendsKharifCrops` | app.py:428-430 | a Kharif season, without fallback, recommends only Kharif crops |
| `Crops.RabiRecommendsRabiCrops` | app.py:431-433 | a Rabi season, without fallback, recommends only Rabi crops |
| `Crops.BlackSoilHot` | app.py:412-423 | at 40 degrees Black soil keeps Cotton, Sorghum and Sunflower, in that order |
| `Crops.BlackSoilHotKharif` | app.py:409-438 | Black soil at 40 degrees in the Kharif season is recommended exactly Cotton |
| `Loan.EffectiveRate` | app.py:665 | `max(rate - 3, 0)` with the subsidy: rate - 3 from 3% up, exactly 0 at or below 3%; without the subsidy the rate is unchanged; a non-negative rate never becomes negative or larger |
| `Loan.MonthlyRate` | app.py:669 | the monthly fraction times 1200 gives back the annual percentage, and it is positive exactly when the annual rate is |
| `Loan.Pow` | app.py:673 | `(1 + r) ** n` is at least 1 for a base of at least 1, and above 1 for a base above 1 and n of at least 1 |
| `Loan.Emi` | app.py:672-675 | at a positive monthly rate the EMI solves the annuity equation e ((1 + r)^n - 1) = a r (1 + r)^n; otherwise e n = a |
| `Loan.ComputeLoan` | app.py:669-678 | the EMI is the formula's value at the effective monthly rate, the total is EMI times tenure, and the total is the amount borrowed plus the interest |
| `Loan.EmiRepaysLoan` | app.py:669-677 | paying the EMI monthly for the tenure, with monthly interest on what is owed, leaves exactly nothing owed |
| `Loan.InstalmentsExceedAmount` | app.py:672-677 | at a positive monthly rate the instalments add up to more than the amount borrowed |
| `Loan.InterestIffPositiveRate` | app.py:665-678 | for a positive amount the total interest is zero when the effective rate is zero and positive when it is positive |
| `Loan.ZeroRateIsStraightLine` | app.py:674-677 | at a zero effective rate EMI times tenure equals the amount, and the total is the amount |
| `Loan.SubsidyUpToThreePercentIsInterestFree` | app.py:665-678 | with the subsidy, a rate of at most 3% costs no interest |
| `Fertilizer.Requirement` | app.py:721-724 | Rice and Wheat use their own coefficients; every other crop uses N 2.5, P 0.6, K 2.0 |
| `Fertilizer.Deficit` | app.py:726-728 | the need is never negative, tops the soil's supply up to the requirement, and is zero exactly when the soil already covers it |
| `Fertilizer.DeficitIsLeastTopUp` | app.py:726-728 | no smaller non-negative top-up meets the requirement |
| `Fertilizer.NothingNeededIffSoilSuffices` | app.py:726-728 | on a positive area nothing is needed exactly when the soil level is at least target yield times coefficient |
| `Fertilizer.ProductKg` | app.py:733-741 | the product quantity carries exactly the needed nutrient at its content fraction (urea and DAP 46%, MOP 60%), and is non-negative for a non-negative need |
| `Fertilizer.ComputePlan` | app.py:721-741 | the N, P and K needs are the deficits at the crop's requirement row, all needs and product quantities are non-negative, and urea, DAP and MOP carry exactly the N, P and K needed |
| `Fertilizer.RiceAndWheatUseOwnRows` | app.py:721-728 | Rice needs the deficits at N 2.5, P 0.6, K 2.5 and Wheat at N 3.0, P 0.6, K 2.0 |
| `Fertilizer.OtherCropsUseDefault` | app.py:724 | for a crop other than Rice and Wheat the needs are the deficits at the default coefficients |
| `Session.RequiredFieldsPresent` | app.py:886 | `name and phone and land_size > 0`: a form is accepted only with a non-empty name, a non-empty phone and a positive land size, and refused when any of the three is missing |
| `Session.SessionState.constructor` | app.py:22-29 | a new session has an empty chat log, an empty profile and is not complete |
| `Session.SessionState.SendChat` | app.py:799-802 | a non-empty message appends exactly the user entry and then the bot's reply to it; earlier entries and the profile are unchanged; an empty message changes nothing |
| `Session.SessionState.ClearChat` | app.py:805-806 | the chat log becomes empty and the profile is untouched |
| `Session.SessionState.SaveProfile` | app.py:885-907 | the profile is replaced whole and marked complete exactly when name and phone are non-empty and land is positive; otherwise nothing changes; the invariant "complete iff a valid profile is stored" is kept |
| `Session.SessionState.ClearProfile` | app.py:946-948 | the profile is emptied and marked incomplete, the chat log is untouched |
| `Session.BadgeFor` | app.py:923-930 | Expert from 20 years, Experienced from 10, Intermediate from 5, New below 5 |
| `Session.BadgeMonotone` | app.py:923-930 | more experience never earns a lower badge |

## Left out

- Streamlit page layout, widgets, navigation, reruns and messages: presentation only. Inputs the widgets collect are parameters.
- The CSS theme (`set_theme`), the language string tables and the theme and language settings: presentation only.
- All `numpy.random` values (crop yield, profit and duration, market forecast, weather, confidence scores): nondeterministic decoration with no stated behaviour.
- Plotly and pandas chart construction, and the other pages (state insights, market, weather, disease, water, schemes): foreign library calls and static text.
- Floating-point rounding and the `:,.0f` / `:.1f` formatting: loan and fertilizer figures are exact reals.
- The JSON profile export and the date stamping: library serialisation and clock access. The save date is a parameter of `SaveProfile`.
- Unicode case mapping: `Lower` lowers ASCII letters only.
- The chat page shows only the last ten messages: display only, the log itself is modelled.
- The saved-recommendations list and its clear button: nothing in the engine fills it.
- Loan.EmiRepaysLoan: assumes a non-negative rate. The rate slider starts at 4%, and a negative rate would take the straight-line branch, which does not amortise.
- Loan.InterestIffPositiveRate: assumes a positive amount and a non-negative rate, as the amount and rate inputs guarantee.
