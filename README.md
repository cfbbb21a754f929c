# Word-level language model: data-preparation pipeline

This project models and proves the data-preparation pipeline of the word-level
LSTM language-model script `Dynamic_Quantization.py`:

- **Vocabulary.** `Dictionary` is a growing two-way vocabulary. It has a
  `word2idx` map and an `idx2word` list. `add_word` gives each new word the
  next dense id and returns the stored id for a word it has already seen.
  It is a Dafny `class` with those two fields. A ghost `Valid()` invariant
  says the map and the list describe the same one-to-one numbering.
- **Tokenizer.** `Corpus.tokenize` reads a text twice. Pass 1 splits each line
  with Python's `str.split()`, appends `<eos>`, and adds every word to the
  shared dictionary. Pass 2 looks every word up and concatenates the lines'
  ids. Both passes are methods with the source's nested loops; the inner
  loop of pass 1 is its own method, `AddWords`. The pure functions
  `AllWords`, `AddAll` and `Encode` specify them, and lemmas prove what the
  output means. One dictionary is shared by train, valid and test, in that
  order. The `Corpus` constructor proves that ids given out for an earlier
  text do not change when later texts are tokenized.
- **Whitespace split.** `str.split()` with no argument is the function
  `Text.Split`. It splits on the characters `str.isspace()` accepts. Runs of
  whitespace count as one separator, and leading or trailing whitespace is
  ignored.
- **Batching.** `batchify(data, bsz)` is written as `narrow`, then
  `view(bsz, -1)`, then `.t()`. It is proved to put `data[b*nbatch + t]` at
  row `t`, column `b`. Reading the columns back gives the data minus its last
  `len(data) % bsz` elements.
- **Windows.** `get_batch(source, i)` cuts `seq_len = min(bptt, rows-1-i)` rows
  starting at `i`. Its target is the next `seq_len` rows, flattened row by row.
  `evaluate` visits the window starts `range(0, rows-1, bptt)`. These windows
  cover every row `0 .. rows-2` exactly once, and the weights `len(data)` add
  up to `rows - 1`. That sum is the divisor `evaluate` uses.

The methods that change the dictionary state its new `idx2word` list and say
that old mappings are kept. `Vocabulary.MapDeterminedByList` proves that the
list fixes `word2idx` completely, so this describes the whole new state.

Tensors are `seq<int>` (flat) and `seq<seq<int>>` (matrices). A text file is
a `seq<string>` of its lines.

## Preconditions and source defects

- `batchify` raises when `len(data) < bsz`: `nbatch` is then 0, and
  `view(bsz, -1)` on zero elements fails (line 133). An empty `data` fails
  the same way. The model therefore requires `1 <= bsz <= len(data)`.
- Line 131 reads the misspelt `daat.size(0)`, which would raise `NameError`.
  The model reads it as `data.size(0)`.
- A missing file trips the `assert os.path.exists(path)` at line 69. File
  access is not modelled (see below).
- `torch.cat` of an empty list raises (line 88), so a text with no lines
  cannot be tokenized. `Tokenize` therefore requires at least one line.

## Model

| member | source | states |
|---|---|---|
| `Text.IsSpace` | Dynamic_Quantization.py:74 | the separators of `str.split()`: space, tab, newline and carriage return are whitespace; letters, digits, `<` and `>` are not |
| `Text.Word` | Dynamic_Quantization.py:74 | the result is the longest whitespace-free prefix of the line: a prefix, without whitespace, and followed by whitespace or the end of the line |
| `Text.Split` | Dynamic_Quantization.py:74 | `line.split()` yields only non-empty tokens that contain no whitespace |
| `Text.SplitEmptyIffBlank` | Dynamic_Quantization.py:74 | a line splits into no tokens if and only if it is empty or all whitespace |
| `Text.SplitSkipsSpace` | Dynamic_Quantization.py:74 | leading whitespace of any length is ignored: the split of `ws + s` is the split of `s` |
| `Text.SplitRun` | Dynamic_Quantization.py:74 | a run of whitespace after a token is one separator: the split of `t + ws + s` is `[t]` followed by the split of `s` |
| `Text.SplitJoin` | Dynamic_Quantization.py:83 | round trip: splitting whitespace-free tokens joined by single spaces gives back exactly those tokens |
| `Text.SplitKeepsNonSpace` | Dynamic_Quantization.py:74 | splitting drops only whitespace: the tokens concatenated are the line's non-whitespace characters in order |
| `Vocabulary.Dictionary.constructor` | Dynamic_Quantization.py:47-49 | a new dictionary is empty and satisfies the invariant |
| `Vocabulary.Dictionary.AddWord` | Dynamic_Quantization.py:51-55 | a known word gets back its stored id and nothing changes; a new word is appended, gets id = old length, the size grows by one and every old mapping is kept; the invariant holds; `idx2word[id] == word` |
| `Vocabulary.Dictionary.Len` | Dynamic_Quantization.py:57-58 | `len(dictionary)` equals the number of distinct words in `word2idx` |
| `Vocabulary.AddWordTwice` | Dynamic_Quantization.py:51-55 | two `add_word` calls with the same word return the same id and leave the dictionary as one call does |
| `Vocabulary.AddOne` | Dynamic_Quantization.py:51-55 | `add_word`'s effect on `idx2word`: the old list is a prefix of the new one, the word is listed, and at most one entry is added |
| `Vocabulary.AddAll` | Dynamic_Quantization.py:75-76 | `add_word` on each word in order adds at most one entry per word and never shrinks the list |
| `Vocabulary.AddAllSnoc` | Dynamic_Quantization.py:75-76 | adding one more word is one more `add_word` on the list built so far |
| `Vocabulary.KeysAreListed` | Dynamic_Quantization.py:52-54 | under the invariant, a word is a key of `word2idx` if and only if it is listed in `idx2word` |
| `Vocabulary.BijectiveDistinct` | Dynamic_Quantization.py:48-54 | under the invariant, `idx2word` has no duplicates |
| `Vocabulary.MapDeterminedByList` | Dynamic_Quantization.py:48-54 | two maps that agree with the same word list are equal, so `idx2word` fixes `word2idx` |
| `Vocabulary.SizeIsKeyCount` | Dynamic_Quantization.py:57-58 | under the invariant, the map has exactly as many keys as the list has entries |
| `Vocabulary.AddOneKeeps` | Dynamic_Quantization.py:52-54 | appending a new word at id = old length keeps the invariant |
| `Vocabulary.AddAllExtends` | Dynamic_Quantization.py:52-54 | adding words never moves an existing id: the old list is a prefix of the new one |
| `Vocabulary.AddAllContents` | Dynamic_Quantization.py:71-76 | after adding, a word is listed if and only if it was listed before or was among the added words |
| `Vocabulary.AddAllDistinct` | Dynamic_Quantization.py:52-53 | adding keeps the word list free of duplicates |
| `Vocabulary.AddAllKnown` | Dynamic_Quantization.py:52 | adding only words that are already listed changes nothing |
| `Vocabulary.AddAllTwice` | Dynamic_Quantization.py:51-55 | adding the same sequence of words a second time changes nothing |
| `Vocabulary.AddAllAppend` | Dynamic_Quantization.py:62-65 | adding two texts one after the other is the same as adding their concatenation |
| `Tokenizer.LineWords` | Dynamic_Quantization.py:74 | a line's words are its tokens plus one, the last being `<eos>` |
| `Tokenizer.AllWords` | Dynamic_Quantization.py:73-74 | the words of all lines, in order, are at least one per line, and the last is `<eos>` when there is a line |
| `Tokenizer.TokenCount` | Dynamic_Quantization.py:73-74 | the token count of a text plus one per line is at least the number of lines |
| `Tokenizer.AllWordsPrefix` | Dynamic_Quantization.py:73-76 | the words of the first lines come first among the words of all lines |
| `Tokenizer.AllWordsNext` | Dynamic_Quantization.py:73-76 | one more line appends exactly that line's words |
| `Tokenizer.KnownLine` | Dynamic_Quantization.py:85-86 | if all words of a text are keys, so is every word of each of its lines |
| `Tokenizer.Corpus.constructor` | Dynamic_Quantization.py:61-65 | train, valid and test are tokenized in that order with one dictionary; the final `idx2word` is the words of all three added in order; each split's ids are its encoding under the final dictionary, so later splits never change earlier ids |
| `Tokenizer.Corpus.Tokenize` | Dynamic_Quantization.py:67-90 | the dictionary stays valid and grows by the text's words in order; old mappings are kept; the output is the encoding of the lines, every id is below `len(dictionary)`, and its length is the token count plus one per line |
| `Tokenizer.Corpus.AddLines` | Dynamic_Quantization.py:71-76 | pass 1 leaves `idx2word` equal to the old list with every word of every line, `<eos>` included, added in order, and keeps old mappings |
| `Tokenizer.Corpus.AddWords` | Dynamic_Quantization.py:75-76 | the inner loop of pass 1 leaves `idx2word` equal to the old list with the line's words added in order, and keeps old mappings |
| `Tokenizer.Corpus.EncodeLines` | Dynamic_Quantization.py:79-90 | pass 2 returns the concatenated per-line lookups of the words |
| `Tokenizer.PassOneCoversPassTwo` | Dynamic_Quantization.py:71-86 | after pass 1 every word pass 2 looks up is a key, so the lookup never fails |
| `Tokenizer.EncodeLine` | Dynamic_Quantization.py:83-87 | a line's ids are one per token plus one, and the last is the id of `<eos>` |
| `Tokenizer.Encode` | Dynamic_Quantization.py:79-88 | the ids of all lines concatenated have at least one id per line, and the last is the id of `<eos>` when there is a line |
| `Tokenizer.LookupAppend` | Dynamic_Quantization.py:84-86 | looking up two word lists one after the other gives the two id lists one after the other |
| `Tokenizer.EncodeIsLookup` | Dynamic_Quantization.py:82-88 | concatenating the per-line ids equals looking up the flat word list |
| `Tokenizer.AllWordsLength` | Dynamic_Quantization.py:73-74 | a text has one word per whitespace token plus one `<eos>` per line |
| `Tokenizer.EncodeLength` | Dynamic_Quantization.py:82-88 | the output length is the sum over lines of (number of tokens + 1) |
| `Tokenizer.LineEndsWithEos` | Dynamic_Quantization.py:83-87 | each line's block ends with the id of `<eos>`, and it is exactly that one id if and only if the line is blank |
| `Tokenizer.DecodeEncode` | Dynamic_Quantization.py:82-88 | with a valid dictionary every id is in range, and reading the ids back through `idx2word` gives the split words with `<eos>` after each line |
| `Tokenizer.EncodeStable` | Dynamic_Quantization.py:62-65 | if the map only gains keys, the encoding of text it already knew is unchanged |
| `Tokenizer.TwoLineWords` | Dynamic_Quantization.py:74 | lines `"a b"`, `"b a"` give the words `a b <eos> b a <eos>` |
| `Tokenizer.TwoLineVocabulary` | Dynamic_Quantization.py:71-76 | a fresh vocabulary built from those lines is `[a, b, <eos>]` |
| `Tokenizer.TwoLineIds` | Dynamic_Quantization.py:79-88 | those lines encode as `[0, 1, 2, 1, 0, 2]` |
| `Tokenizer.Lookup` | Dynamic_Quantization.py:86 | looking up a word list gives one id per word |
| `Tokenizer.Decode` | Dynamic_Quantization.py:114 | reading ids through `idx2word` gives one word per id |
| `Seqs.Concat` | Dynamic_Quantization.py:88 | concatenates the blocks in order, as `torch.cat` does on the non-empty list `Tokenize` builds and as `view(-1)` of a matrix does (line 140); no blocks give `[]`, a case `torch.cat` would reject and `Tokenize`'s requirement of at least one line rules out |
| `Seqs.ConcatCons` | Dynamic_Quantization.py:88 | putting a block in front of the list puts its elements in front of the concatenation |
| `Seqs.ConcatSnoc` | Dynamic_Quantization.py:87-88 | appending a block to the list appends its elements to the concatenation |
| `Seqs.ConcatRectangular` | Dynamic_Quantization.py:140 | flattening rows of width `w` row by row (`view(-1)`) puts entry `(k, b)` at `k*w + b` |
| `Seqs.Chunks` | Dynamic_Quantization.py:133 | `view(k, -1)` of `k*n` elements gives `k` rows of width `n` |
| `Seqs.ChunkAt` | Dynamic_Quantization.py:133 | row `b`, column `t` of that view is element `b*n + t` |
| `Seqs.ConcatChunks` | Dynamic_Quantization.py:132-133 | gluing the rows of the view back together gives the first `k*n` elements |
| `Batching.Transpose` | Dynamic_Quantization.py:133 | `.t()` of a matrix with `cols` columns has `cols` rows of the old row count |
| `Batching.TransposeTwice` | Dynamic_Quantization.py:133 | transposing twice gives the matrix back |
| `Batching.DivMulBound` | Dynamic_Quantization.py:131-132 | `nbatch * bsz` is at most `len(data)`, it leaves exactly `len(data) % bsz` over, and `nbatch >= 1` when `bsz <= len(data)` |
| `Batching.Streams` | Dynamic_Quantization.py:131-133 | narrowing to `nbatch * bsz` and viewing gives `bsz` streams of `nbatch = len(data) // bsz >= 1` ids each |
| `Batching.StreamsAt` | Dynamic_Quantization.py:131-133 | step `t` of stream `b` is `data[b*nbatch + t]` |
| `Batching.Batchify` | Dynamic_Quantization.py:130-133 | the result has `nbatch = len(data) // bsz` rows, at least one, each of `bsz` columns, and the entry at row `t`, column `b` is `data[b*nbatch + t]` |
| `Batching.Unbatchify` | Dynamic_Quantization.py:130-133 | reading a matrix column by column gives rows × columns elements |
| `Batching.BatchifyRoundTrip` | Dynamic_Quantization.py:130-133 | reading the batchified columns back, followed by the dropped tail, gives the data; the tail has `len(data) % bsz` elements, so nothing is lost when `bsz` divides `len(data)` |
| `Batching.SevenIntoTwo` | Dynamic_Quantization.py:130-133 | `batchify([0..6], 2)` is `[[0,3],[1,4],[2,5]]`, and the `6` is dropped |
| `Windows.SeqLen` | Dynamic_Quantization.py:138 | `seq_len` with `bptt = 25` (line 126, `Windows.Bptt`) is at most `bptt` and at most the rows left after `i`, and equals one of the two |
| `Windows.GetBatch` | Dynamic_Quantization.py:137-141 | `1 <= seq_len <= bptt`; both row ranges lie inside `source`; `data` is rows `i .. i+seq_len-1`; `target` has `seq_len * ncols` entries, and entry `k*ncols + b` is `source[i+1+k][b]` |
| `Windows.TargetIsShiftedData` | Dynamic_Quantization.py:139-140 | target row `k` is data row `k+1`, and the last target row is the row just after the window |
| `Windows.LastWindowIsOneRow` | Dynamic_Quantization.py:138 | a window starting on the second-to-last row holds one row |
| `Windows.WindowIsBatch` | Dynamic_Quantization.py:137-139 | row `r` lies in the `k`-th window of the loop if and only if it is data row `r - start` of the batch `get_batch` returns for that start |
| `Windows.RowInOneBatch` | Dynamic_Quantization.py:154-155 | every row but the last is a data row of exactly one batch of the loop |
| `Windows.FiveRowsFromThree` | Dynamic_Quantization.py:138 | on five rows, the window at 3 has `min(25, 1) = 1` row |
| `Windows.Starts` | Dynamic_Quantization.py:154 | every value of `range(start, stop, step)` is in `[start, stop)` |
| `Windows.StartsAt` | Dynamic_Quantization.py:154 | the `k`-th window start is `start + k*bptt` |
| `Windows.StartsCover` | Dynamic_Quantization.py:154-155 | every row `r` with `start <= r < stop` lies in some window |
| `Windows.StartsDisjoint` | Dynamic_Quantization.py:154-155 | no row lies in two windows |
| `Windows.StartsTotal` | Dynamic_Quantization.py:159-161 | the window lengths add up to `stop - start`, so each row is counted once |
| `Windows.EvaluateWindows` | Dynamic_Quantization.py:154-159 | one `get_batch` per start of `range(0, rows-1, bptt)`, in order, and the summed `len(data)` weights are `rows - 1` (0 for an empty matrix) |

## Left out

- `LSTMModel` (lines 13-44). It holds the embedding, LSTM, linear and dropout layers and their random initialisation. These are framework modules and floating-point numerics.
- Model loading and printing (lines 92-99). This is file I/O with a fixed path.
- The text-generation loop (lines 101-122). It samples with `exp` and `torch.multinomial`, which is randomness and floating point, and it writes and re-reads a file. Only its `idx2word` lookup appears, as `Tokenizer.Decode`.
- `repackage_hidden` (lines 143-147). It is tensor-specific and returns the method `h.detach` without calling it.
- The loss and perplexity in `evaluate` (lines 150-153 and 156-161). This is cross-entropy on float tensors. Only the window loop and the `len(data)` weights are modelled. The model shows that the weights add up to `rows - 1`. For a one-row matrix that is 0, and the source's final division by `len(data_source) - 1` then fails; this case is not modelled further.
- `quantize_dynamic` (lines 164-166). It is an opaque library call.
- File access in `tokenize` (lines 69, 72, 80): `os.path.exists`, `open` and UTF-8 decoding. The text is given as a sequence of already decoded lines, and no other I/O is modelled.
- `tokenize` reads the file twice. The model runs both passes over the same line sequence, so it cannot capture a file that changes between the two reads.
- Ids are unbounded integers, not `int64` tensors. A vocabulary never comes near 2^63 words.
- `get_batch` is modelled only for `0 <= i < rows - 1`, the starts `evaluate` passes it. For `i >= rows - 1` both slices are empty; a negative `i` indexes from the end and gives a `data` and `target` that do not line up; neither case is modelled.
