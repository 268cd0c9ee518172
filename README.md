# matprojgeom in Dafny

matprojgeom is a set of Python 2 scripts. They download crystal structures from the Materials Project, turn each structure into one row of numeric and categorical descriptors, train scikit-learn models on that table, and predict crystal properties for formulas typed at a prompt. This project models the parts of those scripts that carry their own logic:

- **`scraper`** (`Scraper`, `matprojscraper.py`) picks the first Materials Project id from the destination folder and the `resume` argument. It maps ids to file names `mp-<id>.mson` and reads them back. Its loop looks up one id per iteration, writes the structure if one is found, and always moves on to the next id. The remote lookup is an oracle `id -> Option<S>`. The loop runs for `k` iterations. The folder is a class with a `map` of files and the list of names.
- **`csvbuilder`** (`TableBuilder`, `databasegenerator.py`) reads every structure of a folder listing. For each structure with fewer than `nary` species it writes a row of column values. The header of column names goes out once, just before the first row, and the `next_row` counter tracks this. Reading a file and each column function may raise; the first exception ends the build, and the lines written before it stay written.
- **the descriptors** (`Descriptors`, `databasegenerator.py`):
  - `numberOfSpecies`;
  - the ten `frac*` class fractions;
  - `electronsPerAtom`, `radiiRange` and `radiiStd`, which return the sentinel −1000;
  - `electronegativityRange` and `rowRange` (`np.ptp`, max − min);
  - the `np.std(...) > 20` guard in front of the symmetry finder in `crystalSystem`/`spaceGroup`.
  pymatgen's element data (class predicates, oxidation states, electronegativity, radius, row) and the symmetry finder are parameters. Amounts and attributes are exact reals.
- **Python 2 `round`** (`Rounding`) rounds to the nearest multiple of 10^-n, and a tie goes away from zero.
- **the formula prompt** (`Formula`, the `main()` loop of `predictor.py`):
  - the character loop that splits "Li21Si5" into symbols and counts;
  - the `zip`/`extend` expansion into one symbol per site, with the coordinates;
  - the prompt loop that ends on `q`.
- `Text` holds ASCII `isalpha`/`isdigit` (the scripts work on byte strings), `int` of a digit string, and `str` of a natural number. `Wrappers` holds `Option`, `Result` and the Python exceptions that matter here.

Each imperative piece (the tokenizer loop, the `extend` loop, the prompt loop, the start-id selection, the scraping loop and `csvbuilder`) is a method. Each method is proved against a function that states what it computes. The properties are lemmas about those functions.

## Model

| member | source | states |
|---|---|---|
| `Formula.Parse` | predictor.py:64-80 | the tokenizer loop returns exactly the (elements, numbers) that the left-fold `Tokens` gives for the formula |
| `Formula.RoundTrip` | predictor.py:61-80 | symbols (non-empty letter runs) written each followed by its decimal count parse back to the same symbols and counts |
| `Formula.ExampleLi21Si5` | predictor.py:61-80 | the prompt's example "Li21Si5" gives ["Li","Si"] and [21,5] |
| `Formula.ExampleAl2Ti1` | predictor.py:61-80 | the prompt's example "Al2Ti1" gives ["Al","Ti"] and [2,1] |
| `Formula.TrailingSymbolDropped` | predictor.py:68-82 | a symbol with no count at the end is dropped without trace, so symbols and counts still have equal length and no message is printed |
| `Formula.ExampleAl2Ti` | predictor.py:68-82 | "Al2Ti" gives ["Al"] and [2] |
| `Formula.LeadingDigitsCounted` | predictor.py:68-80 | leading digits become a count with no symbol in front of the other counts |
| `Formula.CountsMinusSymbols` | predictor.py:68-80 | there are as many counts as symbols, plus one exactly when the first letter-or-digit character is a digit |
| `Formula.TokensCharacterized` | predictor.py:68-80 | the tokens are the letter runs that a digit run follows, and the values of all maximal digit runs, in order, once non-alphanumerics are gone |
| `Formula.SymbolsAreWords` | predictor.py:69-77 | every symbol returned is a non-empty run of letters |
| `Text.LeadingZeroAbsorbed` | predictor.py:71 | `int` of a digit run ignores its leading zeros |
| `Formula.TokensIgnorePunctuation` | predictor.py:68-78 | characters that are neither letters nor digits are skipped without ending a run |
| `Formula.PunctuationDropped` | predictor.py:68-78 | deleting one character that is neither a letter nor a digit, anywhere in the formula, leaves the tokens unchanged |
| `Formula.ExampleAlDash2` | predictor.py:68-78 | "Al-2" parses like "Al2" |
| `Formula.Expand` | predictor.py:85-87 | the `extend` loop over the zip builds exactly the expansion of the zipped (symbol, count) pairs |
| `Formula.ExpansionLength` | predictor.py:85-87 | `el_list` has one entry per counted atom: its length is the sum of the zipped counts |
| `Formula.ExpansionOccurrences` | predictor.py:85-87 | each symbol occurs in `el_list` as often as the counts given for it add up to |
| `Formula.ExpansionBlock` | predictor.py:85-87 | the sites of each pair form one contiguous block, right after those of the pairs before it |
| `Formula.Session` | predictor.py:60-88 | the prompt loop stops at the first input exactly equal to "q" and computes, for each line before it, the tokens, the mismatch flag (the message of line 82), the sites and the coordinates |
| `Scraper.ParseIntNumeral` | matprojscraper.py:24 | `int` of a string of decimal digits is the number those digits denote |
| `Scraper.ParseIntUnsigned` | matprojscraper.py:24 | white space before and after a numeral is ignored |
| `Scraper.ParseIntSigned` | matprojscraper.py:24 | a '+' or '-' may stand in front of the numeral, with white space around it and also between sign and digits; '-' negates the value |
| `Scraper.ParseIntNeedsDigit` | matprojscraper.py:24 | a string without a decimal digit raises ValueError |
| `Scraper.ParseIntRejectsLetters` | matprojscraper.py:24 | "mp-5" is not a number: a name that keeps anything besides the id raises ValueError |
| `Scraper.ParseIntRejectsDoubleSign` | matprojscraper.py:24 | "--5" raises ValueError: only one sign is taken |
| `Scraper.ParseIntSpaceAfterSign` | matprojscraper.py:24 | "- 5" reads as −5 |
| `Scraper.ParseIntSurroundingSpace` | matprojscraper.py:24 | " 42\n" reads as 42 |
| `Scraper.FileNameRoundTrip` | matprojscraper.py:24-37 | stripping "mp-" and ".mson" from the name an id is saved under and parsing gives back the id |
| `Scraper.FileNameInjective` | matprojscraper.py:35-37 | different ids are saved under different names |
| `Scraper.ParseAll` | matprojscraper.py:24 | the listing maps to ids exactly when every name parses; one id per name, in order; otherwise a ValueError |
| `Scraper.Largest` | matprojscraper.py:25 | `sorted(ids)[-1]` is an element of the ids and at least every id |
| `Scraper.StartId` | matprojscraper.py:14-27 | the start id is 1 when the folder is empty or `resume <= 0`; otherwise a ValueError if some name is not an id, else the larger of `resume` and the largest saved id |
| `Scraper.ChooseStart` | matprojscraper.py:14-27 | the imperative start selection computes `StartId` |
| `Scraper.ResumeFromSavedIds` | matprojscraper.py:23-27 | over a folder of files the scraper wrote itself, resuming starts at max(resume, largest saved id) |
| `Scraper.ResumeNeedsFiles` | matprojscraper.py:14-23 | with an empty folder `resume = 1234` still starts at 1, and with the default `resume = 0` a folder holding ids 5, 7 and 12 is scraped again from 1 |
| `Scraper.ResumeExample` | matprojscraper.py:23-27 | saved ids {5, 7, 12} and resume 1 restart at 12, so id 12 is fetched again |
| `Scraper.Folder.Write` | matprojscraper.py:37 | writing a file sets the store at that name only; a new name is appended to the listing, an overwritten one keeps its place |
| `Scraper.Poll` | matprojscraper.py:33-41 | after k iterations the id is start + k, the requests were start … start+k−1, the store is the one-id-at-a-time update `Stored`, and the listing is the old one with the name of each newly created file appended in creation order (`Listed`) |
| `Scraper.Scrape` | matprojscraper.py:14-41 | a bad file name stops the run before any lookup with a ValueError and an unchanged folder; otherwise the loop of `Poll` runs from `StartId`, with the same store and listing |
| `Scraper.StoreElsewhere` | matprojscraper.py:35-37 | an iteration changes the store only at the current id's file name |
| `Scraper.StoredAt` | matprojscraper.py:33-41 | after the run, each requested id's file holds what the lookup found, or what it held before if nothing was found |
| `Scraper.StoredUntouched` | matprojscraper.py:33-41 | names that are not the file of a requested id are left unchanged |
| `Scraper.WrittenIffFound` | matprojscraper.py:36-40 | a file for a new id n is written if and only if the lookup for n succeeds; "not found" writes nothing |
| `Scraper.ListedAppends` | matprojscraper.py:33-41 | the listing after the run starts with the old listing unchanged, and every name after it is the file of a requested id whose lookup succeeded |
| `Scraper.StoredSplit` | matprojscraper.py:33-41 | running j iterations and then k more from the next id is the same as running j + k |
| `Scraper.StoreTwice` | matprojscraper.py:25-37 | looking up the same id twice leaves the store as one lookup does; since the lookup is a fixed function of the id (the database does not change between the two requests), re-fetching the largest saved id rewrites the same record |
| `Rounding.RoundHalfAway` | databasegenerator.py:59 | `round(x)` is the integer within one half of x, and a tie goes away from zero |
| `Rounding.RoundError` | databasegenerator.py:47 | `round(x, n)` is within half a unit of the n-th decimal of x |
| `Rounding.RoundIdempotent` | databasegenerator.py:47 | rounding a rounded value changes nothing |
| `Rounding.RoundWithin` | databasegenerator.py:47 | rounding keeps a value inside an interval whose ends are whole numbers |
| `Rounding.RoundUnitToWhole` | databasegenerator.py:59 | a value of [0,1] rounded to a whole number is 0 or 1, and 1 exactly from one half up |
| `Descriptors.SpeciesAreElements` | databasegenerator.py:39-40 | `numberOfSpecies` is the number of distinct elements of the composition |
| `Descriptors.Total` | databasegenerator.py:47 | the number of atoms is positive exactly for a non-empty composition |
| `Descriptors.WeightedWithin` | databasegenerator.py:47 | a sum weighted by atomic fractions lies between the least and the greatest weight |
| `Descriptors.ClassFractionBounds` | databasegenerator.py:45-83 | before rounding, a class fraction lies in [0,1]; it is 1 when every element is in the class and 0 when none is, so a single element gives exactly 1 or 0 |
| `Descriptors.ClassFractionComplement` | databasegenerator.py:45-83 | the fractions of a class and of its complement add up to 1 |
| `Descriptors.Frac` | databasegenerator.py:45-83 | every frac descriptor lies in [0,1]; the six that round to a whole number (metalloid, lanthanoid, halogen, chalcogen, alkaline, alkali) give 0 or 1, and 1 exactly when the fraction is at least one half |
| `Descriptors.FracAllOrNone` | databasegenerator.py:45-83 | after rounding, a structure made only of the class scores 1, and one with none of it scores 0 |
| `Descriptors.ElectronsPerAtom` | databasegenerator.py:85-91 | the answer is −1000 when some element has no common oxidation state; with no elements it is 0 |
| `Descriptors.ElectronsPerAtomIsAverage` | databasegenerator.py:85-91 | without a missing state, the answer is the fraction-weighted first oxidation state: between the least and greatest, never −1000 when those are above −1000 |
| `Descriptors.ElectronsPerAtomSentinel` | databasegenerator.py:85-91 | for oxidation states within (−1000, 1000), the answer is −1000 if and only if some element has none |
| `Descriptors.Max` | databasegenerator.py:94 | the maximum is one of the values and at least every value |
| `Descriptors.Min` | databasegenerator.py:94 | the minimum is one of the values and at most every value |
| `Descriptors.PeakToPeak` | databasegenerator.py:94 | `np.ptp` raises ValueError exactly for an empty list; otherwise it is non-negative, and 0 if and only if all values are equal |
| `Descriptors.RoundedRange` | databasegenerator.py:94 | `round(np.ptp(xs), 4)` is an error exactly for an empty list and otherwise non-negative |
| `Descriptors.RangesOfStructure` | databasegenerator.py:93-114 | `electronegativityRange` and `rowRange` raise ValueError exactly for a structure without sites, are otherwise non-negative, and are 0 when all sites hold one element |
| `Descriptors.RadiiRange` | databasegenerator.py:99-104 | ValueError exactly without sites; −1000 if and only if some site lacks a radius; otherwise non-negative |
| `Descriptors.PopulationVariance` | databasegenerator.py:108 | the population variance is non-negative |
| `Descriptors.RadiiStd` | databasegenerator.py:106-111 | −1000 if and only if some site lacks a radius, NaN if and only if there are no sites, otherwise a deviation with a non-negative variance |
| `Descriptors.StdAboveTwenty` | databasegenerator.py:124 | for the standard deviation sd ≥ 0 with sd² the variance, sd > 20 if and only if the variance of (a, b, c) exceeds 400 |
| `Descriptors.LatticeVariance` | databasegenerator.py:124 | the variance of (a, b, c) is the sum of squared pairwise differences over 9 |
| `Descriptors.CubicNotSkipped` | databasegenerator.py:123-135 | a cubic lattice never skips the symmetry finder |
| `Descriptors.TetragonalSkipped` | databasegenerator.py:123-135 | a lattice (x, x, x+d) is skipped if and only if d² > 1800 |
| `Descriptors.SkippedIgnoresFinder` | databasegenerator.py:123-135 | past the threshold `crystalSystem` and `spaceGroup` are 'NA' whatever the finder would answer |
| `TableBuilder.RowOfColumns` | databasegenerator.py:24-30 | a row is computed exactly when no column function raises, and then holds each function's value in column order; otherwise it fails with the exception of the first function that raises |
| `TableBuilder.Qualifying` | databasegenerator.py:23-27 | the structures that get a row all have fewer than `nary` species and each is one of the listing's structures |
| `TableBuilder.CsvBuilder` | databasegenerator.py:7-32 | the loop with its `next_row` counter handles the files in order and stops at the first exception (`Build`); it ends without one exactly when every file reads and every qualifying row computes, and then has written exactly `Table`: nothing if no structure qualifies, else the header, then one row per qualifying structure in listing order |
| `TableBuilder.BuildStops` | databasegenerator.py:21-32 | after the first exception no file is handled and nothing more is written |
| `TableBuilder.BuildSucceeds` | databasegenerator.py:21-32 | the build ends without an exception if and only if every file reads and every qualifying structure's row computes |
| `TableBuilder.BuildClean` | databasegenerator.py:17-32 | without an exception, the lines written are `Table` of the structures read |
| `TableBuilder.FirstFailure` | databasegenerator.py:21-32 | at the first file that fails, the build ends with its exception, having written the table of the files before it; if that file's row was to be the first, the header is written too, since it goes out before the row is computed |
| `TableBuilder.HeaderWithoutRow` | databasegenerator.py:27-30 | a single qualifying structure whose first column raises (such as `electronegativityRange` of a structure without sites) leaves just the header written |
| `TableBuilder.TableSnoc` | databasegenerator.py:19-32 | each structure adds no line if it does not qualify, the header and its row if it is the first that does, and just its row otherwise |
| `TableBuilder.QualifyingMembers` | databasegenerator.py:23-27 | a structure gets a row if and only if it is in the listing and has fewer than `nary` species |
| `TableBuilder.QualifyingAll` | databasegenerator.py:21-32 | when every structure qualifies, every one gets a row, in listing order |
| `TableBuilder.EmptyTable` | databasegenerator.py:17-32 | when no structure qualifies, nothing is written |
| `TableBuilder.TableShape` | databasegenerator.py:17-32 | the header is the first line and no other; every later line is a row as long as the header, and there are as many rows as qualifying structures |
| `TableBuilder.TooManySpecies` | databasegenerator.py:21-27 | a structure with `nary` species or more adds no line |
| `TableBuilder.RowAfterHeader` | databasegenerator.py:23-26 | once the header is out, a qualifying structure adds exactly its own row |

## Left out

- Network, files and console: `MPRester`, `write_to_json_file`, `os.listdir`, `os.mkdir`/`os.path.exists`, `pm.read_structure`, the csv writer, `raw_input` and every `print`. They are replaced by an oracle, a folder object, a `read` function, a line sequence and the lines handed to the writer. The `verbose` flag and the API key only affect these.
- Scraper.Scrape: the `while True` loop never ends in the source; the model runs a given number `k` of iterations. Errors the remote lookup raises other than IndexError (network failures) are not modelled. The lookup is a fixed function of the id, so the database is taken not to change while the scraper runs.
- TableBuilder.CsvBuilder: the exceptions of `read_structure` and of the column functions are modelled as values; which exception a given pymatgen call raises is a parameter.
- Scraper.ParseInt: Python's `int` on names with non-ASCII digits or on `long` overflow is not modelled; the scripts see byte strings.
- The order of `os.listdir` is taken as given: the names of the folder in creation order, the listing of `csvbuilder` as a sequence.
- pymatgen internals: the element predicates and attributes, `Composition`/`Structure`, and `SymmetryFinder` are parameters. A structure's composition is taken to list each element once with a positive amount (the `Positive` and `Distinct` requirements of the lemmas), which pymatgen's compositions of structures do.
- Floating point: amounts, fractions and attributes are exact reals, and `round` acts on reals. The square root inside `np.std` is not computed. `Descriptors.RadiiStd` returns the variance instead of `round(sqrt(variance), 4)`, and the guard compares the variance with 400, which is exact for a non-negative square root (`Descriptors.StdAboveTwenty`).
- `electronegativityStd`, `rowStd`, `density`, `volumePerSite`, `formula` and `ordered` are float numerics or plain pymatgen attribute reads with no logic of their own.
- Descriptors.ElectronsPerAtom: its −1000 answer is an `int` in Python and a float otherwise; the model uses reals for both.
- Formula.Session: the model takes the input to end with a "q" line and the prediction code after line 88 to raise nothing but the ValueError and AttributeError it catches. In the source, input that ends without "q" makes `raw_input` raise EOFError, and any other exception of the prediction code (a KeyError from pandas, an error in `build_coordination_predictor`) ends `main()` at that line; the model goes on to every line before the first "q".
- predictor.py beyond the formula loop is left out: `build_predictors`, `build_coordination_predictor`, `predictable_row` (it uses `eval`) and the model predictions and their printing. These are scikit-learn and pandas glue. The structure built from `el_list` and `coords` on a cubic lattice is the end of the model.
- modelbuilder.py (scikit-learn training) and periodictableplotter.py (matplotlib) are not part of this model.
- Differences from the scripts' own descriptions:
  - The docstring of `scraper` (matprojscraper.py:6) says it resumes automatically from the largest id in the folder. The code resumes only when `resume > 0` (line 23), and with the default `resume=0` it starts from 1. The model follows the code.
  - The docstring (matprojscraper.py:11) says `resume = 1234` starts with `mp-1234`. The code starts at 1 when the folder is empty, whatever `resume` is (line 23 tests `len(files_list) > 0` first; `Scraper.ResumeNeedsFiles`).
  - When it resumes, the code starts at the largest saved id itself, not the one after it, so that id is fetched and written again (`Scraper.ResumeExample`, `Scraper.StoreTwice`).
  - The prompt asks for numbers for all elements (predictor.py:61). A formula whose last element has no number, such as "Al2Ti", is not reported: its last symbol is dropped before the length check (`Formula.ExampleAl2Ti`).
