# Genre co-occurrence aggregator: a Dafny model

This project models an offline batch job that prepares input for a music
recommender. It has two scripts that do the same preparation:

1. Read a song catalog and parse each song's `genre_ids` field.
   The field is `'|'`-separated integer codes, or missing.
2. Build the genre vocabulary. This is the distinct codes in an arbitrary
   but fixed order; a code's position is its matrix index.
3. Keep the listening events whose `target` is 1.
4. Left-join those events to the catalog on the song id, and drop the
   events whose song is unknown.
5. Group the joined rows by user. Each user's genre set is the union of
   their songs' genre lists.

What each script does next:

- `generateMatrixAndScores.py` accumulates two things:
  - a score vector `s`, where `s[i]` counts the users whose set contains
    genre `i`;
  - a symmetric co-occurrence matrix `D`, where `D[i, j]` counts the users
    whose set contains both genre `i` and genre `j`.
- `genreClustering.py` prints every 2-combination of each user's set. It
  allocates `D` and `s` but never fills them.

Modules:

- `Wrappers`: `Option` and `Result`.
- `Collections`:
  - distinctness and first-index lookup (Python's `list.index`);
  - a fixed enumeration of a set, as a ghost function and as a method
    that picks elements one by one;
  - sums of vectors and matrices.
- `GenreField`: parsing one `genre_ids` field.
  - `str.split('|')`, with its round trip through `'|'.join`;
  - Python's `int()` on one piece: surrounding ASCII whitespace (space
    and `\t \n \v \f \r`, not the separators `\x1c`-`\x1f`), an
    optional sign, digits with single underscores between them;
  - printing codes back, with the round trip proved.
- `Catalog`:
  - parsing the whole catalog; a bad piece aborts the run with the
    `ValueError` `int()` raises;
  - the vocabulary;
  - the filter and join;
  - the users and each user's genre set.
- `CoCounts`: what the two output arrays mean, as pure functions of the
  sequence of user genre sets seen so far. It also holds lemmas on how one
  more user changes them.
- `MatrixAndScores`: the accumulating script.
  - The class `CoOccurrence` holds the vocabulary, the `D` array (`array2`)
    and the `s` array (`array`), and mutates them in place.
  - `AddUser` is the body of the per-user loop. Its inner loops increment
    `s` and `D` exactly as the script does.
  - `GenerateMatrixAndScores` is the whole script.
- `Clustering`:
  - `itertools.combinations(pool, 2)`;
  - the printed pairs of every user;
  - the whole clustering script.

Two behaviours of the code fix choices the model has to follow:

- `int()` raises `ValueError` on a genre piece it cannot read, such as the
  `abc` of `"12|abc"`. Nothing catches it, so the model makes the whole run
  fail with that piece (`ParseError.BadToken`). The failure is the first
  such piece of the first such song, as the comprehension and `map` raise.
- `list(set(...))` fixes no order for the vocabulary. The model assumes
  none. Every result is stated for whatever order was chosen, and any two
  vocabularies are permutations of each other.

## Model

| member | source | states |
|---|---|---|
| GenreField.Split | generateMatrixAndScores.py:11 | `str.split('|')` returns at least one piece, and no piece contains the delimiter |
| GenreField.JoinSplit | generateMatrixAndScores.py:11 | joining the pieces of a split with '|' gives back the input, so splitting loses no character |
| GenreField.SplitJoin | generateMatrixAndScores.py:11 | splitting the join of delimiter-free pieces gives back exactly those pieces |
| GenreField.TrimStartDropsSpace | generateMatrixAndScores.py:11 | `int()`'s leading strip keeps a suffix of the token and removes only whitespace |
| GenreField.TrimEndDropsSpace | generateMatrixAndScores.py:11 | `int()`'s trailing strip keeps a prefix of the token and removes only whitespace |
| GenreField.TrimStartStrips | generateMatrixAndScores.py:11 | after `int()`'s leading strip, the token is empty or starts with a non-space: all leading whitespace is removed |
| GenreField.TrimEndStrips | generateMatrixAndScores.py:11 | after `int()`'s trailing strip, the token is empty or ends with a non-space: all trailing whitespace is removed |
| GenreField.ParseInt | generateMatrixAndScores.py:11 | definition of `int()` on one piece; its properties are stated by ParseIntRejects, ParseShow and ParsePadded |
| GenreField.ParseIntRejects | generateMatrixAndScores.py:11 | `int()` accepts a token only if every character is whitespace, a sign, a digit or '_', and at least one is a digit; so the empty piece and non-numeric pieces are rejected |
| GenreField.SeparatorRejected | generateMatrixAndScores.py:11 | a piece holding one of `\x1c`-`\x1f` anywhere is rejected by `int()`, even though `str.isspace()` holds of those characters |
| GenreField.SeparatorFieldRejected | generateMatrixAndScores.py:11 | a field whose first piece is `"\x1f7"` and second is `"3"` fails on the first piece, so the run aborts |
| GenreField.ParseShow | generateMatrixAndScores.py:11 | `int()` reads back the decimal text of every integer, negative ones included (see the digit limit under Left out) |
| GenreField.ParsePadded | generateMatrixAndScores.py:11 | `int()` reads a code correctly whatever run of space, `\t \n \v \f \r` surrounds it |
| GenreField.ParseTokens | generateMatrixAndScores.py:11 | the list comprehension succeeds iff every piece parses, yielding each piece's value in order; otherwise it fails with a piece that does not parse |
| GenreField.ParseTokensFirstFailure | generateMatrixAndScores.py:11 | when the comprehension raises, it raises on the first piece `int()` rejects: every piece before it parses |
| GenreField.ParseGenres | generateMatrixAndScores.py:11 | a missing field gives []; a present field gives one code per piece iff every piece parses; a present but empty text is an error, never [] (an empty cell in the file is read as missing, see Left out) |
| GenreField.ParseFormatted | generateMatrixAndScores.py:11 | parsing a nonempty list of codes written with '|' between them gives back that list |
| GenreField.Show | generateMatrixAndScores.py:11 | printing a code gives nonempty text with no delimiter |
| Catalog.ParseCatalog | generateMatrixAndScores.py:11 | the column map succeeds iff every song's field parses; on success it keeps each song's id and gives its parsed codes in catalog order; on failure the error is that of some song's field |
| Catalog.ParseCatalogFirstFailure | generateMatrixAndScores.py:11 | when the column map raises, the error is that of the first song whose field fails: every song before it parses |
| Catalog.Flatten | generateMatrixAndScores.py:14-15 | a code is in the flattened list iff some song lists it |
| Collections.Enumerate | genreClustering.py:37-43 | some fixed iteration order of a set, used where the clustering script iterates sets: a duplicate-free list holding exactly the set's elements |
| Collections.ListOfSet | generateMatrixAndScores.py:16 | `list(s)` of a set holds each element of the set exactly once, in some order, and nothing else; the same order stands for the set's iteration at l.44 and l.48 |
| Catalog.BuildVocabulary | generateMatrixAndScores.py:14-19 | the vocabulary has no duplicates and holds exactly the codes some song lists; its length is the number of distinct codes |
| Catalog.VocabularySize | generateMatrixAndScores.py:16-19 | any vocabulary's length equals the number of distinct codes in the catalog |
| Catalog.VocabulariesArePermutations | generateMatrixAndScores.py:16 | two vocabularies of one catalog are permutations of each other, so the unspecified set order changes only index positions |
| Catalog.MatchesMembership | generateMatrixAndScores.py:33-35 | a positive event joins to exactly the rows carrying its user and the genres of a catalog song with its id |
| Catalog.JoinMembership | generateMatrixAndScores.py:29-35 | a row is in the joined table iff some event with target 1 and some catalog song with that event's song id produce it |
| Catalog.JoinAppend | generateMatrixAndScores.py:29-35 | filtering and joining is row by row: the result for two event lists concatenated is the concatenation of the results |
| Catalog.MatchesNone | generateMatrixAndScores.py:34-35 | an event whose song is not in the catalog joins to nothing, so `dropna` drops it |
| Catalog.DroppedEvent | generateMatrixAndScores.py:29-35 | an event whose target is not 1 or whose song is unknown can be removed from the log without changing the joined table |
| Catalog.Matches | generateMatrixAndScores.py:29-35 | definition of the rows one event contributes to the left join; its meaning is stated by MatchesMembership and MatchesNone |
| Catalog.FilterJoin | generateMatrixAndScores.py:29-35 | definition of the filtered, joined and `dropna`-cleaned table; its meaning is stated by JoinMembership, JoinAppend and DroppedEvent |
| Catalog.Users | generateMatrixAndScores.py:38 | definition of the group-by keys, the users with at least one joined row; UsersWith and UsersCounted state what is counted over them |
| Catalog.UserGenreSet | generateMatrixAndScores.py:40-42 | definition of the set built from one user's group; its meaning is stated by UserGenreSetMembers and EmptyGenreListAddsNothing |
| Catalog.UserGenreSetMembers | generateMatrixAndScores.py:40-42 | a code is in a user's genre set iff one of that user's joined rows lists it |
| Catalog.EmptyGenreListAddsNothing | generateMatrixAndScores.py:40-42 | a joined row whose song has no genres (a missing field) adds nothing to any user's set |
| Collections.IndexOf | generateMatrixAndScores.py:45 | `genres.index(x)` is None (the ValueError) iff x is absent; otherwise it is the first position holding x |
| Catalog.UserGenresInVocabulary | generateMatrixAndScores.py:40-45 | every code in a user's set is in the vocabulary, so `genres.index` never raises |
| CoCounts.CountStep | generateMatrixAndScores.py:44-51 | one more user adds 1 to the number of users holding a set of codes iff that user's set contains them all |
| CoCounts.CountSupersetsAntitone | generateMatrixAndScores.py:44-51 | fewer users hold a larger set of codes than hold a smaller one |
| CoCounts.ScoreVector | generateMatrixAndScores.py:44-46 | the score of each genre lies between 0 and the number of users |
| CoCounts.CoMatrix | generateMatrixAndScores.py:48-51 | the co-occurrence matrix is square, symmetric and zero on the diagonal, with entries between 0 and the number of users |
| CoCounts.CoEntryStep | generateMatrixAndScores.py:48-51 | one more user adds 1 to D[i][j] iff i != j and the user's set holds both codes |
| CoCounts.CoBoundedByScores | generateMatrixAndScores.py:44-51 | D[i][j] is at most s[i] and at most s[j] |
| CoCounts.ScoreSumStep | generateMatrixAndScores.py:44-46 | a user with k distinct codes adds exactly k to the total of s |
| CoCounts.CoRowSumStep | generateMatrixAndScores.py:48-51 | a user adds k - 1 to the row of each of their k codes, and nothing to the other rows |
| CoCounts.CoMatrixSumStep | generateMatrixAndScores.py:48-51 | a user with k distinct codes adds exactly k * (k - 1) to the total of D, 2 per combination |
| CoCounts.SmallUserKeepsMatrix | generateMatrixAndScores.py:48-51 | a user with fewer than two codes leaves D unchanged |
| MatrixAndScores.CoOccurrence.constructor | generateMatrixAndScores.py:19-23 | D is a fresh n by n array of zeros and s a fresh length-n array of zeros, n being the vocabulary size; no user counted yet |
| MatrixAndScores.CoOccurrence.ContentsAreCounts | generateMatrixAndScores.py:44-51 | at any point, s and D hold exactly the counts over the users processed so far |
| MatrixAndScores.CoOccurrence.Symmetric | generateMatrixAndScores.py:50-51 | D is symmetric with a zero diagonal after any number of users |
| MatrixAndScores.CoOccurrence.PairsBoundedByScores | generateMatrixAndScores.py:44-51 | every D[i, j] is at most s[i] and s[j] |
| MatrixAndScores.CoOccurrence.AddUser | generateMatrixAndScores.py:44-51 | processing one user adds 1 to s[i] exactly for the codes in their set, and 1 to D[i, j] exactly for i != j with both codes in the set; the totals grow by k and by k * (k - 1); the counts stay equal to the specification |
| MatrixAndScores.CoOccurrence.AddScores | generateMatrixAndScores.py:44-46 | the score loop adds 1 to s at the index of each code of the user's set and changes nothing else |
| MatrixAndScores.CoOccurrence.AddPairs | generateMatrixAndScores.py:48-51 | the combinations loop adds 1 to both D[x, y] and D[y, x] for every two different codes of the set and changes no other entry |
| MatrixAndScores.CoOccurrence.Bump | generateMatrixAndScores.py:50-51 | the two increments of one combination add 1 to D[x, y] and to D[y, x] and leave every other cell unchanged |
| MatrixAndScores.CoOccurrence.VisitPair | generateMatrixAndScores.py:48-51 | each combination's two indices differ, and it is the first time either of its two cells is incremented |
| MatrixAndScores.CoOccurrence.PoolPositions | generateMatrixAndScores.py:48-49 | once all combinations are visited, exactly the pairs of distinct codes of the set have been visited |
| MatrixAndScores.CountOverUsers | generateMatrixAndScores.py:38-51 | counting over the processed sets equals the number of distinct processed users whose set holds the codes |
| MatrixAndScores.UsersCounted | generateMatrixAndScores.py:38-51 | once every user has been processed once, the count of sets holding some codes is the number of users whose set holds them |
| MatrixAndScores.AccumulateUsers | generateMatrixAndScores.py:38-51 | after the group-by loop has processed every user of the joined table once, in any order, s[i] is the number of users whose set holds genre i and D[i, j] (i != j) the number whose set holds both |
| MatrixAndScores.GenerateMatrixAndScores | generateMatrixAndScores.py:7-51 | the script fails iff parsing the catalog fails, with that error; otherwise its vocabulary is valid, s[i] is the number of users whose set holds genre i, and D[i, j] (i != j) the number holding both |
| Clustering.Combinations2 | genreClustering.py:41 | `itertools.combinations(pool, 2)` yields n * (n - 1) / 2 pairs for n elements, each made of elements of the pool |
| Clustering.CombinationsPositions | genreClustering.py:41 | (x, y) is produced iff x stands before y at two positions of the pool |
| Clustering.CombinationsAreSubsets | genreClustering.py:40-41 | on a set, each pair has two different members, and every two different members appear in one order or the other |
| Clustering.CombinationsNoRepeat | genreClustering.py:40-41 | on a set, no unordered pair is produced twice, in either order |
| Clustering.PairsOfUsers | genreClustering.py:37-43 | definition of the combinations printed for users visited in a given order; PairsOfUsersMembers states which pairs it holds |
| Clustering.EmittedPairs | genreClustering.py:37-43 | definition of the printed combinations with the users in one fixed order; EmittedPairsMeaning states which pairs it holds |
| Clustering.PairsOfUsersMembers | genreClustering.py:37-43 | a pair is printed iff it is one of the combinations of some processed user |
| Clustering.UserPairs | genreClustering.py:38-43 | a user with k codes prints exactly the k * (k - 1) / 2 two-element subsets of their set, each once; none when k < 2 |
| Clustering.EmittedPairsMeaning | genreClustering.py:37-43 | a printed pair is two different codes of one user's set, and every two different codes of a user's set are printed in one order or the other |
| Clustering.Clustering | genreClustering.py:6-43 | the script fails iff parsing the catalog fails, with that error; otherwise it builds a valid vocabulary, D and s are zero-filled at its size, and the printed pairs are every user's combinations |

## Left out

- File I/O is not modelled. This covers reading the two CSV files, keeping
  only their columns and writing the pickle files. The catalog and the
  log are parameters; the outputs are the returned object's fields.
- Console output is not modelled: `print(user)` and the final
  `print(df.head(5))`. The printed combinations are returned as a
  sequence.
- Pandas internals are not modelled, in particular the order `groupby`
  visits users in. Users are processed once each, in an unspecified
  order. The counts `s` and `D` do not depend on that order
  (MatrixAndScores.AccumulateUsers accepts any order). The sequence the
  clustering script prints does: `groupby` visits keys sorted, and
  Clustering.EmittedPairs replaces that by the fixed order `Enumerate`
  gives, so only which pairs are printed is modelled, not their order.
- Python's set iteration order is not modelled. It stays unspecified in
  two places:
  - in the vocabulary;
  - in the pool `itertools.combinations` works on.
- Counts are exact integers. numpy accumulates them in float64, which is
  exact only up to 2^53, far above any realistic count.
- `int()` also strips non-ASCII Unicode whitespace and accepts non-ASCII
  Unicode digits. The model strips only space and `\t \n \v \f \r`,
  and accepts only ASCII digits. It rejects `\x1c`-`\x1f` as `int()`
  does.
- MatrixAndScores.CoOccurrence.constructor requires a vocabulary without
  duplicates. The code obtains one from `list(set(...))`.
- A genre column that pandas reads as numbers is not modelled. A field is
  text or missing. pandas reads the column as floats when every field
  holds a single code and some cells are missing. `str(x)` then produces
  `"12.0"`, which `int()` rejects.
- Missing user or song ids in the log are not modelled, so `dropna` is
  modelled only as dropping unmatched events.
- Clustering.Clustering pins down the printed pairs through
  `EmittedPairs`. For each user, `EmittedPairs` lists the combinations of
  that user's set in a fixed enumeration order. The pair properties
  themselves are in the lemmas beside it.
- GenreField.ParseGenres: `pd.read_csv` reads an empty cell, and by
  default the strings "NA", "null", "nan" and similar, as missing. Such a
  field therefore gives `[]`, not an error. The model takes the field as
  already read: `None` is a missing cell, and `Some(text)` is text that
  pandas did not treat as missing, so `Some("")` does not arise from a file.
- GenreField.ParseShow and GenreField.ParsePadded: CPython 3.11 and later
  refuse by default to convert an integer string longer than 4300 digits.
  The model has no such limit.
