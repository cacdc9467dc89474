# PrescripChain hash chain, modelled in Dafny

PrescripChain keeps prescription records in an in-memory hash chain. The chain
is an append-only list of blocks. Each block holds a payload (`data`), a
`timestamp`, the digest of its predecessor (`previous_hash`) and its own
digest (`hash`). The digest is SHA-256 of the serialised three-field record
`{'data', 'timestamp', 'previous_hash'}`. `add_block` links each new block to
the last one, using the sentinel `'0'` for the first. `is_valid` walks the
list from index 1. At each index it recomputes the block's digest and checks
the back-link to block i-1. The demo driver appends a candidate prescription
only when a classifier labels it 0 (legitimate).

The project has two modules:

- `chain.dfy`, module `Chain`: blocks, headers and the `Blockchain` class.
  The class has the `chain` field that `AddBlock` extends in place, and the
  `IsValid` loop. Beside them are the reference predicates: `Verified` (what
  validation accepts) and `Linked` (the linkage invariant of chains built by
  appending alone). The module also holds the lemmas relating them.
- `prescriptions.dfy`, module `Prescriptions`: the driver loop of `main`. It
  builds one prescription record per candidate row, appends exactly those
  labelled 0, in input order, and then validates the chain.

SHA-256 and Python's `str(dict).encode()` are not modelled. They enter as a
`Hashing` value with two total functions, `serialize` and `sha256`, fixed
when the chain is created. Every result holds for every choice of the two.
Creation and validation run the same `Header` (the same three fields in the
same key order) through the same two functions. That shared path is
everything the model needs to know about hashing. Dafny functions are
deterministic, so two chains built from the same entries are equal.

The program's own words promise more than its code does. The docstring of
`is_valid` (ai_blockchain.py:53) says it checks that no block has been
tampered with, and the closing note (ai_blockchain.py:176) says validation
ensures that no tampering has occurred. But the loop starts at index 1
(ai_blockchain.py:57), so block 0 is never checked on its own. A change to
block 0's payload, time or back-link that keeps its stored digest goes
unnoticed, and so does any change at all to a chain of one block. The model
follows the code. `ReplaceBlock` states exactly which single-block changes
validation detects, and `FirstBlockHeaderUnchecked` and
`SingleBlockIsVerified` state the two gaps.

## Model

| member | source | states |
|---|---|---|
| `Chain.Append` | ai_blockchain.py:29-49 | appending gives one more block and leaves the old blocks unchanged; the new block carries the given payload and time and points at the sentinel `'0'` when the chain was empty, otherwise at the old last block's hash; its stored hash is the digest of its own three fields |
| `Chain.Blockchain.constructor` | ai_blockchain.py:18-22 | a new chain is empty and satisfies the linkage invariant |
| `Chain.Blockchain.AddBlock` | ai_blockchain.py:24-49 | the new list is `Append` of the old one: length plus one, old blocks unchanged, back-link to the sentinel or to the old last hash, stored hash equal to the digest of the new header; it preserves both the linkage invariant and validity |
| `Chain.Blockchain.IsValid` | ai_blockchain.py:51-77 | returns true exactly when every index i >= 1 passes both checks; returns false exactly when some index i >= 1 has a stored hash that differs from the recomputed one, or a back-link that differs from block i-1's hash |
| `Chain.NewChainIsValid` | ai_blockchain.py:18-77 | a freshly constructed chain (the empty list of `__init__`) has length 0 and validation returns true on it |
| `Chain.AppendLinked` | ai_blockchain.py:29-49 | appending to a chain that satisfies the linkage invariant gives one that satisfies it too |
| `Chain.AppendVerified` | ai_blockchain.py:29-49 | appending to any chain that passes validation, tampered or not, gives a chain that still passes |
| `Chain.BuildLinked` | ai_blockchain.py:24-49 | a chain built from empty by appending alone satisfies the linkage invariant, has one block per entry, and holds the entries' payloads and times in order |
| `Chain.LinkedIsVerified` | ai_blockchain.py:57-77 | the linkage invariant implies that validation succeeds |
| `Chain.BuiltChainIsVerified` | ai_blockchain.py:62-66 | every chain built from empty by appending alone passes validation, because creation and validation hash the same three fields in the same order |
| `Chain.SingleBlockIsVerified` | ai_blockchain.py:57 | a chain of one block passes validation whatever the block holds |
| `Chain.ReplaceBlock` | ai_blockchain.py:57-77 | replacing block i of a valid chain gives a valid chain exactly when the new block passes both checks at i (no check when i is 0) and block i+1, if any, still points at the new block's stored hash |
| `Chain.FirstBlockHeaderUnchecked` | ai_blockchain.py:57-59 | changing block 0's payload, time or back-link while keeping its stored hash is not detected |
| `Chain.TamperedHashDetected` | ai_blockchain.py:69-75 | changing the stored hash of a block after the first, or of a block 0 that has a successor, is detected |
| `Chain.TamperedHeaderDetected` | ai_blockchain.py:61-71 | changing the payload, time or back-link of a block after the first, while keeping its stored hash, is detected whenever the altered fields hash differently from the original ones |
| `Chain.TamperedLinkDetected` | ai_blockchain.py:73-75 | changing the back-link of a block after the first is detected by the link check, whatever the hash functions are |
| `Prescriptions.AcceptedIndicesSpec` | ai_blockchain.py:148-161 | a candidate position is accepted exactly when its label is 0, and the accepted positions keep their input order |
| `Prescriptions.AcceptedCount` | ai_blockchain.py:158-161 | the number of accepted candidates equals the number of 0 labels |
| `Prescriptions.AcceptedEntriesAt` | ai_blockchain.py:148-159 | the k-th appended entry is the record built for the k-th accepted position (patient and medication numbered from 1, its quantity and dosage, status `legitimate`), with that position's time |
| `Prescriptions.AppendLegitimate` | ai_blockchain.py:148-161 | starting from an empty chain, the loop leaves exactly the chain built from the accepted entries, in order |
| `Prescriptions.RecordPrescriptions` | ai_blockchain.py:132-168 | the chain built by the driver holds one block per 0 label, block k holding the k-th accepted record and its time; it satisfies the linkage invariant and the final validation returns true |

## Left out

- `train_ai_model` and `check_prescription` are left out. They wrap a scikit-learn logistic regression and a train/test split over floating point. The driver takes the predicted labels as an input sequence.
- `display_chain` and the printing in `main` are left out. They are console output only.
- SHA-256 and the exact text of Python's `str(dict)` are not modelled. Both are the function fields of `Hashing`, so the model assumes nothing about their internals, including the 64-character hex format of a digest.
- `datetime.now()` is not modelled. `AddBlock` takes the timestamp text as a parameter, and the driver takes one clock reading per candidate (`stamps[i]`).
- Aliasing is not modelled. A caller who mutates a payload dictionary after appending it changes the stored block in Python; here payloads are values.
- Malformed blocks are not modelled. Code outside the class can delete a key from a stored block dictionary, and `is_valid` would then raise `KeyError`; here every block always has its four fields.
- Labels are unbounded integers, not restricted to {0, 1}. The driver compares each label with 0, as the source does.
