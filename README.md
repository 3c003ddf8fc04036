# remedy — a Dafny model of its pure core

remedy copies every mailbox of one or more IMAP accounts into local Maildir
folders. Each mailbox is searched, the message numbers found are cut into
worksets, one tokio task per workset fetches its messages over its own IMAP
session, and a single writer task stores them in the Maildir with their flags.

This project models the three pieces of that program that are logic rather
than I/O, and proves their properties:

- **Flag translation** (`Flags`, in `flags.dfy`): `MaildirFlag::from`,
  `MaildirFlag::as_char` and `flags_for_maildir`. These map the IMAP system
  flags (section 2.3.2 of RFC 3501) to the Maildir info letters S, R, F, T and D.
  A reading of the letters back as flags (`ToFlag`, `FlagsFromMaildir`) is the
  inverse the round-trip lemmas are stated against.
- **Account data and redacting `Debug` output** (`Config`, in `config.dfy`):
  `PasswordContainer`, `Method` and `Account`, with the `zero` default of
  `connections`. A configuration entry whose `connections` may be absent is
  turned into an `Account` by `AccountFromEntry`. The hand-written `Debug`
  impls are modelled, including decimal printing of `u16` and `usize`.
  `ParseAccountDebug` reads a log line back. It is used to prove that the line
  reveals the method, port and connection count, and nothing else.
- **The work plan of `get_mailbox`** (`Mailbox`, in `mailbox.dfy`). Given the
  search result and `connections`, the plan is as follows:
  - the channel is created with capacity `connections`;
  - `workset_size = len / connections` is computed;
  - the function returns early when that is 0;
  - `slice::chunks(workset_size)` cuts the search result;
  - one fetcher handle is pushed per chunk, then one writer handle.

  `GetMailboxPlan` is that loop, proved equal to the specification function
  `MailboxPlan`, about which the partition lemmas are stated.

With `connections == 0`, `mpsc::channel(0)` panics at src/getmail.rs:141. The
division at line 144 would also panic. tokio's bounded channel also panics for a
capacity above its semaphore's `MAX_PERMITS`, which is `usize::MAX >> 3`. That
limit is `Mailbox.MAX_CHANNEL_CAPACITY`, and `Mailbox.ChannelPanics` covers both
cases. The model gives this outcome as `Plan.Aborted` rather than as a
precondition, because the configuration's
default for `connections` is 0 (src/config.rs:19-21, 31). As a result, every
account whose configuration omits `connections` aborts on its first mailbox
(`DefaultConnectionsAbort`).

The search result comes from a set of message numbers. It is modelled as a
sequence in unspecified order, and "each message is fetched exactly once" is
proved under the assumption that it has no repetitions.

## Model

| member | source | states |
|---|---|---|
| `Flags.FromFlag` | src/getmail.rs:89-98 | a flag gets a letter exactly when it is Seen, Answered, Flagged, Deleted or Draft, and the letter is one of S, R, F, T, D |
| `Flags.FromFlagRoundTrip` | src/getmail.rs:89-98 | the letter of a recognised flag reads back as that same flag, so no two recognised flags share a letter (Seen→S, Answered→R, Flagged→F, Deleted→T, Draft→D) |
| `Flags.ToFlagRoundTrip` | src/getmail.rs:89-98 | each of the five letters is produced by exactly the flag it reads as |
| `Flags.FlagsForMaildir` | src/getmail.rs:102-108 | the output is no longer than the input, every character is one of S, R, F, T, D, and the lengths are equal exactly when every input flag is recognised |
| `Flags.FlagsForMaildirAppend` | src/getmail.rs:102-108 | the translation of a concatenation is the concatenation of the translations (with `""` for the empty list) |
| `Flags.FlagsForMaildirReadsBack` | src/getmail.rs:102-108 | reading the output back gives exactly the recognised flags in input order: the other flags are dropped, nothing is sorted or deduplicated |
| `Flags.FlagsFromMaildirWritesBack` | src/getmail.rs:102-108 | any string of the five letters is the translation of the flags it reads as |
| `Flags.FlagsForMaildirPosition` | src/getmail.rs:102-108 | a recognised flag at position i puts its letter right after the letters of the flags before it |
| `Flags.FlagsForMaildirExamples` | src/getmail.rs:102-108 | [Flagged, Seen, Custom] gives "FS"; [Seen, Flagged] gives "SF", which fails `AsciiOrdered`; [Seen, Seen] gives "SS"; Recent and MayCreate give "" |
| `Config.AccountFromEntry` | src/config.rs:19-32 | `connections` is 0 when the entry omits it and the given value otherwise; every other field is copied |
| `Config.DecimalString` | src/config.rs:66-67 | `{:?}` of an integer is a non-empty string of decimal digits without a leading zero |
| `Config.ParseDecimalString` | src/config.rs:66-67 | the printed digits read back as the number printed |
| `Config.PasswordDebugShowsOnlyVariant` | src/config.rs:51-59 | a `Plaintext` container prints "[plaintext password]" and a `Shell` container prints "[shell command]", whatever they hold; two containers print alike exactly when they are of the same variant |
| `Config.AccountDebugReadsBack` | src/config.rs:62-69 | the account line "Account { method: M, port: P, connections: C }" reads back as the account's method, port and connection count |
| `Config.AccountDebugShowsOnlySummary` | src/config.rs:61-69 | two accounts print the same line exactly when their method, port and connections agree, whatever their host, username, password or folder |
| `Mailbox.Chunks` | src/getmail.rs:150-151 | `chunks(k)` gives back the workset when concatenated; every piece has 1 to k elements, and all but the last have exactly k |
| `Mailbox.ChunkCount` | src/getmail.rs:151 | `chunks(k)` makes ceil(len / k) pieces |
| `Mailbox.FlattenDistinct` | src/getmail.rs:150-151 | the pieces of a sequence without repetitions are pairwise disjoint and have no repetitions themselves |
| `Mailbox.GetMailboxPlan` | src/getmail.rs:139-184 | the loop that pushes one fetcher handle per chunk and then the writer handle produces exactly the plan `MailboxPlan` specifies |
| `Mailbox.PlanAbortsIff` | src/getmail.rs:141-144 | the plan aborts exactly when `connections` is 0 or above the channel's largest capacity `usize::MAX >> 3` |
| `Mailbox.PlanNothingToFetchIff` | src/getmail.rs:143-148 | the early `Ok` return is taken exactly when the channel can be made (1 ≤ connections ≤ `usize::MAX >> 3`) and there are fewer messages than connections, so for the empty mailbox but also for small non-empty ones |
| `Mailbox.PlanShape` | src/getmail.rs:141-184 | with 1 ≤ connections ≤ len and connections ≤ `usize::MAX >> 3` the plan spawns: a channel of capacity `connections` and at least two handles, fetchers first, then exactly one writer, pushed last |
| `Mailbox.PlanWorksets` | src/getmail.rs:144-157 | with 1 ≤ connections ≤ len and connections ≤ `usize::MAX >> 3` the plan spawns, and the fetchers' worksets concatenate to the search result in order; each has `len / connections` messages except the last, which has between 1 and that many |
| `Mailbox.PlanFetchesEachOnce` | src/getmail.rs:150-157 | with 1 ≤ connections ≤ len and connections ≤ `usize::MAX >> 3` and a search result without repetitions, every message is in some workset, no message is in two, and no workset repeats a message |
| `Mailbox.PlanFetcherCount` | src/getmail.rs:144-153 | with 1 ≤ connections ≤ len and connections ≤ `usize::MAX >> 3` there are ceil(len / k) fetchers for k = len / connections; that is between `connections` and 2·connections − 1, and equals `connections` exactly when `connections` divides len |
| `Mailbox.PlanFiveOverTwo` | src/getmail.rs:144-184 | 5 messages over 2 connections give worksets of 2, 2 and 1, then the writer |
| `Mailbox.DefaultConnectionsAbort` | src/getmail.rs:141-144 | an account built from an entry without `connections` aborts on every mailbox |
| `Mailbox.SmallMailboxNotFetched` | src/getmail.rs:143-148 | 3 messages over 4 connections plan no fetcher at all |
| `Mailbox.IntendedPlanFetchesAll` | src/getmail.rs:143-151 | with the early return limited to empty mailboxes, every message of a non-empty mailbox is in a workset once the channel can be made; the plan agrees with `MailboxPlan` on every empty mailbox and whenever len ≥ connections |

## Left out

- Connecting, TLS and STARTTLS, login, and the IMAP `examine`, `search`, `fetch` and `list` calls (src/getmail.rs:30-40, 110-124, 131-135, 162-171, 212). These are network calls into the `imap` and `native_tls` crates. The search result is a parameter of the plan.
- `retrieve_password` (src/getmail.rs:42-65). It splits the command with `shlex`, spawns a process, decodes UTF-8 and trims Unicode whitespace, all through foreign code.
- `init_maildir` and `store_cur_with_flags` (src/getmail.rs:67-80, 188-195). These are filesystem writes through the `maildir` crate. Only the flag string handed to them is modelled.
- Running the tasks. This covers `tokio::spawn`, the bounded channel and its backpressure, `try_join_all`, and the `assert_eq!(fetch.len(), 1)` inside a fetcher (src/getmail.rs:161-203). The model stops at the plan: which worksets, how many handles, and the channel capacity. Task execution, interleaving and partial failure are concurrency and I/O.
- `get` (src/getmail.rs:207-227) and src/main.rs. These orchestrate the per-account and per-mailbox futures and log errors.
- `Config::read_from` (src/config.rs:41-48). This is file reading and TOML deserialisation by serde. Only its result is modelled: `AccountFromEntry` applies the `zero` default to an already-parsed entry.
- `Flags.MaildirFlag.AsChar` has no contract of its own. It is the field access of `as_char`, and it is covered by the rows of `FromFlag` and `FlagsForMaildir`.
- `Config.MethodDebug`, `Config.PasswordDebug` and `Config.AccountDebug` have no contract of their own. They model the derived `Debug` of `Method` (src/config.rs:13-17) and the impls at src/config.rs:51-59 and 62-69. Their meaning is stated by `PasswordDebugShowsOnlyVariant`, `AccountDebugReadsBack` and `AccountDebugShowsOnlySummary`.
- `Mailbox.MailboxPlan` and `Mailbox.IntendedMailboxPlan` have no contract of their own. `MailboxPlan` specifies src/getmail.rs:139-184 and `GetMailboxPlan` is proved equal to it. Their meaning is stated by the `Plan…` lemmas and by `IntendedPlanFetchesAll`.
- Integer widths are modelled as subset types: `u16` for the port, `usize` (64-bit) for `connections`, and `u32` for message numbers. No arithmetic in the modelled code can overflow, so no wrap-around is modelled.

## Findings

| source | as written | input that shows it | evidently intended | confidence | as-written member | corrected member |
|---|---|---|---|---|---|---|
| src/getmail.rs:144-148 | the mailbox is skipped whenever `len / connections == 0`, which is also true for 0 < len < connections | a mailbox with 3 messages and `connections = 4`: no fetcher is planned and none of the 3 messages is downloaded | only an empty mailbox is skipped, as the log message "mailbox ... is empty, nothing to fetch" says; smaller mailboxes use worksets of at least 1 message | high; not executed | `Mailbox.SmallMailboxNotFetched` | `Mailbox.IntendedPlanFetchesAll` |

The finding does not change `MailboxPlan` or `GetMailboxPlan`, which model the
code as written. `IntendedMailboxPlan` is the corrected plan. It agrees with
`MailboxPlan` on every empty mailbox and whenever there are at least as many
messages as connections (`IntendedPlanFetchesAll`). So it can differ only for
non-empty mailboxes with fewer messages than connections.

Two other behaviours are modelled as written and are not listed as findings:

- The flag letters keep the order in which the server reported the flags. The
  Maildir convention asks for ASCII order.
- An uneven split can plan up to 2·connections − 1 fetchers, which is more
  than `connections`.
