# Compare contiguous pictures — a Dafny model

The repository holds one script, `compare-contiguous-pics.py`. It lists the
images of a directory, sorts them in natural (numeric) order, converts each
image to a raw YUV 4:2:2 frame with ffmpeg, and scores each adjacent pair of
frames with Netflix's `vmaf` tool. It then writes the rows
`(Image 1, Image 2, VMAF Score)` to a CSV report.

This project models the part of the script that is logic and not plumbing:

- `get_sorted_image_list` (module `Lister`, with the digit scanning in
  module `Digits`). It keeps the listing entries that end in `"." + ext`. It
  pairs each kept name with its key, the integer value of the last run of
  digits that `re.findall(r'\d+', name)` finds in the whole name. It then
  sorts the names stably by key. A kept name without a digit makes the call
  fail, because `[-1]` indexes an empty list. The directory listing is an
  input sequence.
- The loops of `main` (module `Planner`). With fewer than two images the
  script stops and runs nothing. Otherwise it converts every image, in list
  order, to `yuv_dir/<stem>.yuv`. It then scores every adjacent pair
  `(i-1, i)` for `i = 1 .. n-1`, in increasing order, each into its own
  `json_dir/compare_{i-1}_{i}.json`, and appends the row
  `(images[i-1], images[i], score)`.
- ffmpeg and vmaf are parameters (`Tools`). `convert` says whether ffmpeg
  exits with status 0. `vmaf` gives the score read back from the JSON file,
  or `None` when vmaf fails or the file lacks `frames[0].metrics.vmaf`. The
  score type is a type parameter and is never inspected.
- Each external program the script runs is recorded as an `Invocation`. A
  failing program aborts the run (`check=True` raises), so the calls made are
  a prefix of the planned calls that stops at the first failure
  (`StopsAtFirstFailure`).

Facts about the script that shape the model:

- The header comment (compare-contiguous-pics.py:20) shows a vmaf command
  with `--feature float_ssim`. The command that is actually built at :59-62
  passes no `--feature` flag, so `Compare` carries only the executable, the
  two frames and the output path.
- The "fewer than two images" exit is in `main` (:87-89). The key of every
  kept name is computed before that test, so a name without digits stops
  the script even when it is the only image.
- A name without digits raises Python's `IndexError` at :48. It is modelled
  as the single error value `NoDigitRun`.

## Model

| member | source | states |
|---|---|---|
| `Digits.DecimalValue` | compare-contiguous-pics.py:48 | `int` of a run of ASCII digits; characterized by `Digits.DecimalRoundTrip` and `Digits.LeadingZeroIgnored` |
| `Digits.DecimalString` | compare-contiguous-pics.py:108 | `str(n)` inside the f-string: non-empty, all digits, no leading zero unless it is "0"; read back by `Digits.DecimalRoundTrip` |
| `Digits.RunsFrom` | compare-contiguous-pics.py:48 | the left-to-right scan of `re.findall(r'\d+', s)` from a position: every run it returns is non-empty and made of digits; characterized further by `Digits.RunsFromLast` and `Digits.FindAllLast` |
| `Digits.FindAllDigitRuns` | compare-contiguous-pics.py:48 | `re.findall(r'\d+', s)`; characterized by `Digits.FindAllLast` |
| `Digits.LastDigitRun` | compare-contiguous-pics.py:48 | scanning back from the end finds nothing exactly when the name has no digit; otherwise it gives the last maximal run of digits (not preceded by a digit, no digit after it) |
| `Digits.LastRunUnique` | compare-contiguous-pics.py:48 | a name has at most one last maximal run of digits |
| `Digits.FindAllLast` | compare-contiguous-pics.py:48 | `re.findall(r'\d+', s)` is empty exactly when `s` has no digit; otherwise its last element is the last maximal run of digits of `s` |
| `Digits.RunsFromLast` | compare-contiguous-pics.py:48 | scanning left to right from any position before the last run ends with that run |
| `Digits.LeadingZeroIgnored` | compare-contiguous-pics.py:48 | `int` ignores a leading zero: "07" and "7" have the same value |
| `Digits.DecimalRoundTrip` | compare-contiguous-pics.py:108 | reading back the decimal spelling `str(n)` gives `n` |
| `Digits.DecimalStringInjective` | compare-contiguous-pics.py:108 | different numbers have different decimal spellings |
| `Lister.EndsWith` | compare-contiguous-pics.py:48 | `f.endswith(suffix)`: the suffix is no longer than the name and equals its last characters |
| `Lister.Matching` | compare-contiguous-pics.py:48 | the list comprehension's filter on `f.endswith(f'.{extension}')`; characterized by `Lister.MatchingMultiset` |
| `Lister.MatchingMultiset` | compare-contiguous-pics.py:48 | each name occurs among the kept names as often as in the listing if it ends with "." + ext, and not at all otherwise |
| `Lister.MatchingAll` | compare-contiguous-pics.py:48 | a listing whose every name passes the filter is kept whole, in order |
| `Lister.KeyOf` | compare-contiguous-pics.py:48 | the sort key `int(re.findall(r'\d+', x)[-1])`, defined only for names with a digit; characterized by `Lister.KeyIsLastRunValue`, `Lister.KeyFromSpan` and `Lister.KeyOfLastRun` |
| `Lister.KeyIsLastRunValue` | compare-contiguous-pics.py:48 | the key of a name is the value of its last maximal run of digits, extension included |
| `Lister.KeyFromSpan` | compare-contiguous-pics.py:48 | any span that is the last maximal run of a name determines its key |
| `Lister.KeyOfLastRun` | compare-contiguous-pics.py:48 | a name made of text not ending in a digit, a digit run `d` and a digit-free tail has key `int(d)` |
| `Lister.LeadingZeroSameKey` | compare-contiguous-pics.py:48 | inserting a leading zero into the last run leaves the key unchanged ("x-07.png" and "y-7.png" tie) |
| `Lister.Decorate` | compare-contiguous-pics.py:48 | fails exactly when some name has no digit; otherwise pairs every name, in order, with its own key |
| `Lister.InsertEntry` | compare-contiguous-pics.py:48 | inserting adds exactly the new entry and puts either it or the old first entry first |
| `Lister.InsertEntryAscending` | compare-contiguous-pics.py:48 | inserting into entries ascending by key keeps them ascending |
| `Lister.SortEntries` | compare-contiguous-pics.py:48 | the sorted entries are a permutation of the input and ascending by key |
| `Lister.InsertEntryNames` | compare-contiguous-pics.py:48 | inserting an entry adds exactly its name to the names |
| `Lister.SortEntriesNames` | compare-contiguous-pics.py:48 | sorting rearranges the names and nothing else |
| `Lister.InsertEntryWithKey` | compare-contiguous-pics.py:48 | the inserted entry comes before every entry with its key and after none of them |
| `Lister.SortEntriesStable` | compare-contiguous-pics.py:48 | for every key, the entries with that key keep their relative order (the sort is stable) |
| `Lister.SortedImageList` | compare-contiguous-pics.py:47-49 | `get_sorted_image_list` on a directory listing; characterized by `Lister.SortedImageListFails`, `Lister.SortedImageListPermutation`, `Lister.SortedImageListAscending` and `Lister.SortedImageListStable` |
| `Lister.SortedImageListFails` | compare-contiguous-pics.py:47-49 | the call fails exactly when a name that passes the extension filter has no digit |
| `Lister.SortedImageListPermutation` | compare-contiguous-pics.py:47-49 | the result is a permutation of the names passing the filter; a name is in it exactly when it is in the listing and ends with "." + ext |
| `Lister.SortedImageListAscending` | compare-contiguous-pics.py:47-49 | every name of the result has a digit and keys never decrease along it (numeric, not lexical, order) |
| `Lister.SortedImageListStable` | compare-contiguous-pics.py:47-49 | for every key, the names with that key come out in listing order |
| `Lister.NaturalOrder` | compare-contiguous-pics.py:15 | for any prefix not ending in a digit and any digit-free extension, the listing "<p>10.<ext>", "<p>2.<ext>", "<p>1.<ext>" sorts to "<p>1.<ext>", "<p>2.<ext>", "<p>10.<ext>" (numeric, not lexical, order) |
| `Lister.NaturalOrderExample` | compare-contiguous-pics.py:47-49 | ["a10.png", "a2.png", "a1.png"] with extension "png" sorts to ["a1.png", "a2.png", "a10.png"] |
| `Lister.NoDigitExample` | compare-contiguous-pics.py:48 | a listing holding "noDigitsHere.png" fails for extension "png" |
| `Lister.SortDescendingThree` | compare-contiguous-pics.py:48 | three entries with strictly decreasing keys come out of the sort reversed |
| `Planner.LastDot` | compare-contiguous-pics.py:101 | the position found holds a dot and no dot follows it; none is found only when the name has no dot |
| `Planner.ImagePath` | compare-contiguous-pics.py:100 | `image_dir / image` as the string `dir + "/" + image` (pathlib normalisation is left out) |
| `Planner.Stem` | compare-contiguous-pics.py:101 | `Path(image).stem`: a prefix of the name; it is shorter exactly when the last dot is neither the first nor the last character, and then it is the name cut at that dot |
| `Planner.YuvPath` | compare-contiguous-pics.py:101 | `yuv_dir/<stem>.yuv`; characterized by `Planner.StemDropsExtension` and `Planner.YuvPathsDistinct` |
| `Planner.StemDropsExtension` | compare-contiguous-pics.py:101 | for a name ending in "." + ext (ext non-empty, dot-free, something before the dot) the YUV file is `yuv_dir/` + the name without "." + ext + `.yuv` |
| `Planner.YuvPathsDistinct` | compare-contiguous-pics.py:99-103 | two different such images get different YUV files |
| `Planner.ResultPath` | compare-contiguous-pics.py:108 | `json_dir/compare_{i-1}_{i}.json`; characterized by `Planner.ResultPathsDistinct` |
| `Planner.ResultPathsDistinct` | compare-contiguous-pics.py:108 | pairs `i != j` get different `compare_{i-1}_{i}.json` paths |
| `Planner.ComparisonPlanOutputsDistinct` | compare-contiguous-pics.py:107-109 | every planned comparison writes its result to a file of its own |
| `Planner.StopsAtFirstFailureThen` | compare-contiguous-pics.py:99-114 | a run that completed the conversions and then ran the comparisons ran the conversions followed by the comparisons |
| `Planner.StopsAtFirstFailureBefore` | compare-contiguous-pics.py:99-103 | a run that failed during the conversions made no comparison |
| `Planner.ConvertAll` | compare-contiguous-pics.py:97-103 | converts the images in list order and stops at the first failing conversion; on success the YUV list is index-aligned with the images and each entry is `yuv_dir/<stem>.yuv` |
| `Planner.CompareAdjacent` | compare-contiguous-pics.py:105-114 | scores pairs (i-1, i) in increasing i and stops at the first failure; on success there is one row per adjacent pair, row k naming images k and k+1 with the score of YUV files k and k+1; all result paths differ |
| `Planner.Run` | compare-contiguous-pics.py:87-114 | fewer than two images: nothing runs and the outcome is "not enough images"; otherwise all conversions, then all comparisons, stopping at the first failure; a completed run has N-1 rows that start at image 0, end at image N-1 and chain (row k's second name is row k+1's first) |
| `Planner.CompareContiguousPics` | compare-contiguous-pics.py:77-114 | a listing with a kept name without digits fails before any program runs; otherwise the run over the sorted list behaves as `Run` states |

## Left out

- Argument parsing with argparse (:39-45). The directory, extension, vmaf path and output path are plain parameters.
- Running ffmpeg and vmaf, and printing the vmaf command line (:51-64). The programs are the `Tools` functions; their exit status and the score are what those functions return.
- Parsing the JSON result (:72-75). The score is an opaque value of a type parameter, and a missing or malformed field is the `None` case of `vmaf`.
- `os.listdir`, the two `mkdir` calls and writing the CSV file (:48, :94-95, :116-120). The listing is an input. The rows handed to the CSV writer are the `Completed` outcome.
- Console messages (:63, :88, :122). The outcome value says which message the script prints.
- Unicode digits: Python's `\d` also matches non-ASCII decimal digits, but the model only knows ASCII `'0'..'9'`.
- pathlib path normalisation of the image directory (`Path(directory) / image`). The image path is modelled as `dir + "/" + image`. `Path(image).stem` follows the rule of Python 3.12's pathlib, where a suffix starts at the last dot unless that dot is the first or last character.
- Planner.YuvPathsDistinct: it is proved only for extensions that are non-empty and contain no dot, and for names with text before the dot. Without those conditions, names such as ".p1" and ".p1.p1" (extension "p1") share the stem ".p1" and the same YUV file.
