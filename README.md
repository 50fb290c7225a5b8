# pyls listing, modelled in Dafny

`pyls` is a small version of `ls`. It lists the entries of one directory in
ascending name order. It has three display modes:

- formatted (`-F`) is documented to mark directories and executables (pyls.py:59), but as written it prints nothing;
- long form (`-l`) shows modification time and size;
- plain shows bare names.

This project models the body of `pyls` as a step from a snapshot of the
directory to its output lines. Each snapshot entry (`EntrySort.Entry`) holds:

- the entry's name;
- whether it is a directory;
- whether it is executable;
- its modification time, already rendered as text;
- its size.

The modules are:

- `LexOrder`: Python's `<=` on `str`, which compares code points lexicographically, with a proper prefix first. It is proved reflexive, total, antisymmetric and transitive.
- `EntrySort`: `sorted` on the names, as an insertion sort proved to give a sorted permutation. If names identify entries, the result does not depend on the listing order.
- `Format`: `str(size)` and `f"{size:>10}"`, with their round trip and field-width facts.
- `Lister`: the body of `pyls` as the method `Pyls`, which sorts the snapshot and hands it to the loop, the method `PrintEntries`. `PrintEntries` is proved equal to the specification function `EmitAll`, and `Pyls` to `Listing`. Lemmas about `Listing` give the behaviour of each mode.

The formatted branch of the code contains no `print`. So with `formatted`
set, the listing is empty, whatever `longform` says. In that branch the
marker is `"/"` for a directory and stays `""` for an executable. The docstring
of `pyls` (pyls.py:59) promises instead that this mode appends `/` to
directories and `*` to executable files. The model follows the code, and the two differences
are recorded under Findings.

## Model

| member | source | states |
|---|---|---|
| `LexOrder.LexLe` | pyls.py:70 | Python's `<=` on names holds exactly when the first name is a prefix of the second or, at the first position where they differ, has the smaller code point |
| `LexOrder.LexLeReflexive` | pyls.py:70 | every name sorts no later than itself |
| `LexOrder.LexLeTotal` | pyls.py:70 | any two names are comparable under Python's string order |
| `LexOrder.LexLeAntisymmetric` | pyls.py:70 | two names that each sort no later than the other are equal |
| `LexOrder.LexLeTransitive` | pyls.py:70 | the string order is transitive |
| `LexOrder.PrefixLexLe` | pyls.py:70 | a prefix of a name sorts no later than the name |
| `EntrySort.Insert` | pyls.py:70 | inserting into a name-sorted list keeps it sorted and adds exactly that entry |
| `EntrySort.SortByName` | pyls.py:69-70 | `sorted(entries)` is sorted by name, is a permutation of the listing and has its length |
| `EntrySort.SortedPermutationUnique` | pyls.py:69-70 | two name-sorted permutations of one listing whose names identify entries are equal |
| `EntrySort.SortIsOrderIndependent` | pyls.py:69-70 | the sorted order is the same whatever order the directory listing came back in |
| `Format.Decimal` | pyls.py:84 | `str(size)` is a non-empty string of digits with no leading zero |
| `Format.DecimalRoundTrip` | pyls.py:84 | reading back `str(size)` gives `size` |
| `Format.DecimalFitsIn` | pyls.py:84 | a size below 10^k takes at most k digits |
| `Format.RightJustify` | pyls.py:84 | `{:>width}` is `max(width, len)` long: leading spaces then the text, never truncated |
| `Format.SizeField` | pyls.py:84 | `{size:>10}` is `str(size)` behind leading spaces, `max(10, digits)` columns wide |
| `Format.StripLeadingSpaces` | pyls.py:84 | stripping removes only leading spaces, and the result does not start with one |
| `Format.SizeFieldRoundTrip` | pyls.py:84 | the size column is `max(10, digits)` wide and exactly 10 below 10^10; stripping its spaces gives `str(size)`, which reads back as `size` |
| `Lister.Marker` | pyls.py:73-78 | the marker is `"/"` exactly for a directory in formatted mode, and `""` otherwise, executables included |
| `Lister.LongLine` | pyls.py:84 | the long line is `"last accessed" + time + ", size "`, then the size field, then `" " + name + marker`, each field recoverable at its offset |
| `Lister.Emitted` | pyls.py:73-86 | one loop iteration prints no line in formatted mode and exactly one line otherwise |
| `Lister.EmitAll` | pyls.py:70-86 | the loop over a sequence of entries prints nothing in formatted mode and one line per entry otherwise |
| `Lister.Listing` | pyls.py:69-86 | the number of lines is the number of entries in both printing modes, and zero in formatted mode |
| `Lister.Pyls` | pyls.py:69-86 | sorting the snapshot and running the loop over it outputs exactly `Listing(entries, longform, formatted)` |
| `Lister.PrintEntries` | pyls.py:70-86 | the `for` loop over the sorted entries prints exactly `EmitAll(sorted, longform, formatted)`: one iteration's lines after another |
| `Lister.EmitAllOneLineEach` | pyls.py:80-86 | without `formatted`, the loop prints one line per entry in order, the long line or the bare name, with an empty marker |
| `Lister.FormattedPrintsNothing` | pyls.py:74-80 | `formatted` takes precedence over `longform`, and the listing is empty |
| `Lister.PlainListing` | pyls.py:69-86 | the plain listing holds one bare name per entry in ascending name order, and every entry's name appears |
| `Lister.LongListing` | pyls.py:80-84 | the long listing holds one line per entry in name order, each `"last accessed" + time + ", size " + size field + " " + name`, and every entry's line appears |
| `Lister.ListingIsOrderIndependent` | pyls.py:69-70 | the output is the same whatever order the directory listing came back in |
| `Lister.PlainListingExample` | pyls.py:69-86 | a directory holding `b.txt` and `a.txt` lists as `a.txt` then `b.txt` |
| `Lister.IntendedMarker` | pyls.py:59 | the docstring's marker: `"/"` exactly for directories, `"*"` exactly for executable files, `""` otherwise |
| `Lister.IntendedListing` | pyls.py:59 | the corrected listing prints one line per entry in every mode |
| `Lister.IntendedFormattedListing` | pyls.py:74-79 | in the corrected formatted mode each line is the name followed by `/` exactly for directories and `*` exactly for executables, in name order |
| `Lister.FormattedListingExample` | pyls.py:74-79 | for a directory `sub` and a file `f.txt`, the code prints nothing with `formatted`, and the corrected listing prints `f.txt` then `sub/` |
| `Lister.ExecutableMarkerExample` | pyls.py:77-78 | an executable file gets the marker `""` from the code and `"*"` from the corrected marker |

## Findings

| source | as written | input that shows it | evidently intended | confidence | as-written member | corrected member |
|---|---|---|---|---|---|---|
| pyls.py:74-79 | the formatted branch computes a marker but prints nothing, so `-F` lists nothing | a directory with subdirectory `sub` and file `f.txt`, `formatted=True` | print `name + marker` for every entry, giving `f.txt` and `sub/` (docstring, pyls.py:59) | high, not executed | `Lister.FormattedListingExample` | `Lister.IntendedFormattedListing` |
| pyls.py:77-78 | an executable file gets the marker `""` | an executable file `run.sh`, `formatted=True` | the marker `"*"` (docstring, pyls.py:59) | medium, not executed | `Lister.ExecutableMarkerExample` | `Lister.IntendedMarker` |

`Pyls` and `Listing` keep the behaviour as written, because that is what the
program does. The corrected definitions sit beside them, and the corrected
listing uses the corrected marker.

## Left out

- Names are sequences of Unicode scalar values. On POSIX, `os.listdir` (pyls.py:69) returns undecodable filename bytes as lone surrogates U+DC80 to U+DCFF, which Python sorts between U+D7FF and U+E000; names holding such surrogate escapes cannot be represented and are not covered.
- `main` and the `argparse` set-up (pyls.py:8-46, 97-98) are command-line plumbing and are not modelled.
- `os.listdir`, `os.path.join`, `os.path.isdir`, `os.access` and `os.stat` are filesystem queries. Their answers are the fields of each snapshot entry.
- `time.localtime` and `time.strftime` depend on the time zone and work on floating-point time. The formatted timestamp is an opaque string in each entry.
- `print` is modelled as appending one line to the returned sequence. The trailing newline of each line is not represented. A name may contain a line break. Each element of the result is one `print` call, so the line counts in `Listing`, `EmitAll`, `PlainListing` and `LongListing` count print calls, not lines of the output text.
- Filesystem errors (a missing path, a permission error, a path that is not a directory, an entry removed before `os.stat`) are not modelled. The code does not handle them, so they propagate as exceptions.
- `EntrySort.SortByName` sorts whole entries by name. Python sorts the names and then looks up each name's metadata. The two agree when names are unique, as they are in a directory. `SortIsOrderIndependent` assumes that uniqueness (`NamesIdentify`).
- Python's `sorted` algorithm is modelled as an insertion sort. Only its result is modelled, and a sorted permutation of a list with unique names is unique.
