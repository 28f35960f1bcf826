# Scrapers and recommendation bot of MagamETH-ai/application, in Dafny

This project models the decision logic of three parts of the application.

- **The Etherscan exporter** (`EtherscanScrapper`, scrapping/etherscan_scrapper.py).
  - Every address starts `pending`.
  - An address already uploaded to the remote store becomes `already_exists`.
  - Otherwise the exporter opens the address's transaction listing and reads the page count from the last pagination link. It then exports pages 1..N as CSV, one at a time.
  - It gives up on an address once more than `N // 3` pages have failed.
  - If it did not give up, it merges the page files and uploads the merged file. The merged local file is deleted only after a successful upload. The page files are deleted either way.
- **The DeBank scraper** (`DeBankScrapper`, scrapping/debank_scrapper.py; scrapping.py is a line-for-line copy of it with the class named `Scrapper`).
  - `get_info` returns the cache file's contents when the file exists.
  - Otherwise it builds one record per address. Each record holds the avatar, tag and username lookups that succeeded.
  - `parse_scrapped_info` turns records into protocol entries, with fallbacks for missing fields.
  - `read_addresses_from_csv` counts (To, Method) pairs, leaving out `Approve` and `Execute` calls, and keeps the pairs that reach a threshold.
- **The Telegram bot** (bot.py).
  - Each user has a position in the shuffled protocol list.
  - Opening recommendations resets it to 0.
  - The card at a position offers back and forward buttons. Their callbacks move the position by one.

The browser, the file system, the remote disk and the messaging API are inputs.

- `Browser.Driver` records every page the driver is sent to.
- The download folder is a map from file name to (creation time, rows). The remote store is a map from path to rows.
- What the browser does during a visit is given as data:
  - the pagination link (`Etherscan.Visit`), or the profile lookups (`DeBank.ProfilePage`);
  - per page, a driver failure or the folder snapshots the download wait polls;
  - whether the upload succeeds.

Python's `str.split`, `int()` and `str()` are modelled in module `Text`. That module proves the round trips the model needs: `int(str(n)) == n`, and `sep.join(s.split(sep)) == s`.

Modules: `Wrappers` (Option, Result), `Text`, `Browser`, `Etherscan`, `DeBank`, `Bot`.

Behaviour of the code that the model keeps:

- A failed upload still leaves the address `success`. The page files are still deleted.
- A page count that parses to a negative number attempts no page. `error_count <= threshold` then fails, so the record stays `pending`. This is the only way an address ends `pending` (`Etherscan.NoneLeftPending`).
- A page file that pandas cannot read makes the merge raise. The outer handler then marks the address `failed` without an `errors` entry, and nothing is deleted.
- The download wait accepts the newest finished `.csv` in the folder. That can be a page file renamed by an earlier page, if the new download has not appeared yet.

## Model

| member | source | states |
|---|---|---|
| `Etherscan.EtherscanScrapper.GetInfo` | scrapping/etherscan_scrapper.py:23-95 | The result has one record per input address. For distinct addresses, each record is what that address's own visit decides. It is `already_exists` when the remote file existed before the call, and `failed` without errors when the page count cannot be read. Otherwise it is the conclusion of a valid run of its pages under `N // 3`, with each page's result agreeing with its outcome and the merge run exactly when the failures stay within the threshold. A record still `pending` belongs to an address whose last visit read a negative page count. Visit by visit, each pass takes the download folder and the remote store from where the previous pass left them, as `ScrapeAddress` states for one address (`Visited`). The pass starts from the record the previous visits left, and when it merges, it merges the folder its own page loop left. The browser history grows by each visit's listing and page URLs in visit order, and by nothing for an address whose remote file existed. The remote store gains exactly the uploaded paths, and every other entry keeps its rows. |
| `Etherscan.EtherscanScrapper.ScrapeAddress` | scrapping/etherscan_scrapper.py:34-93 | An address whose remote file exists becomes `already_exists`, no page is opened and nothing changes. An unreadable page count means `failed`, no pages, and no change to the folder or the store. Otherwise the pages are tried in order 1, 2, … and the attempts form a valid run under the threshold `N // 3`. A page counted a success had a poll whose newest entry was a finished download. A page counted a failure failed in the driver or had every poll stall. The merge runs exactly when the failures stay within the threshold, and the record is the conclusion of the run. The folder passes through one page step per page. After it, the folder and the store are as the merge leaves them, or as the page loop left them when there is no merge. Only this address's remote path can change. The browser opens the listing and then each attempted page, or nothing when the remote file exists. |
| `Etherscan.EtherscanScrapper.ExportPages` | scrapping/etherscan_scrapper.py:55-84 | Pages are attempted in ascending order from 1, and each page's URL is opened in turn. Attempts stop after the last page, or as soon as the failures exceed `total_pages // 3`, which is the abort. The attempts form a valid run, and the abort flag is set exactly when a failure pushed the count past the threshold. Each page's result agrees with its outcome: a success completed its download, a failure failed in the driver or timed out. The folder after the loop is reached from the one before through one page step per attempted page. |
| `Etherscan.EtherscanScrapper.ExportPage` | scrapping/etherscan_scrapper.py:60-76 | The page's URL is opened. A page that failed in the driver counts as a failure and leaves the folder alone. An exported page succeeds exactly when its download wait does and changes the folder as the wait does. A success completed its download, and a failure failed in the driver or had every poll stall. |
| `Etherscan.EtherscanScrapper.WaitForDownload` | scrapping/etherscan_scrapper.py:135-166 | Success is the first poll whose newest listed entry (by ctime) is a finished `.csv` without `crdownload`. Every earlier poll stalls, and the entry is renamed to `{addr}_transactions_{page}.csv`. Otherwise all polls stalled, which is the timeout, and the folder is what the last poll saw. |
| `Etherscan.EtherscanScrapper.MergeCsvByUser` | scrapping/etherscan_scrapper.py:97-133 | With no `{addr}_transactions_*.csv` files, nothing changes. An unreadable page file raises and nothing changes. Otherwise the merged rows are the page files' rows in glob order and are uploaded exactly when the upload succeeds. The merged file stays only when the upload failed, and every page file is deleted. |
| `Etherscan.EtherscanScrapper.RemoveFiles` | scrapping/etherscan_scrapper.py:131-133 | The folder loses exactly the listed files. |
| `Etherscan.EtherscanScrapper.constructor` | scrapping/etherscan_scrapper.py:16-21 | Stores the driver and the download directory. |
| `Etherscan.Latest` | scrapping/etherscan_scrapper.py:148-150 | Picks a listed, non-hidden entry whose ctime is the greatest. |
| `Etherscan.ListInSomeOrder` | scrapping/etherscan_scrapper.py:104 | Glob lists each match exactly once and nothing else. |
| `Etherscan.ReadPages` | scrapping/etherscan_scrapper.py:113 | Reading succeeds exactly when every file is readable, and gives their rows concatenated in order. |
| `Etherscan.ReadableListing` | scrapping/etherscan_scrapper.py:104-113 | A listing of the matched files is readable exactly when every matched file is. |
| `Etherscan.AbortRecordsThresholdPlusOne` | scrapping/etherscan_scrapper.py:76-84 | An aborted run records exactly `threshold + 1` errors, and its last attempted page failed. |
| `Etherscan.NothingAfterAbort` | scrapping/etherscan_scrapper.py:60-84 | Once the failures exceed the threshold, no later page is attempted. |
| `Etherscan.WithinThresholdAttemptsAll` | scrapping/etherscan_scrapper.py:60-88 | A run within the threshold attempted every page 1..N. |
| `Etherscan.ConcludeTerminal` | scrapping/etherscan_scrapper.py:86-93 | For a non-negative page count, the outcome is one of three. Within the threshold it is `success` with `errors = error_count`, or `failed` with the old errors if the merge raised. On abort it is `failed` with `threshold + 1` errors. It is never `pending`. |
| `Etherscan.NegativeCountLeavesRecord` | scrapping/etherscan_scrapper.py:57-60 | A negative page count attempts nothing and leaves the record unchanged. |
| `Etherscan.StepAgrees` | scrapping/etherscan_scrapper.py:60-76 | A page step that counts a success completed its download. One that counts a failure failed in the driver or had every poll stall. |
| `Etherscan.CompletesOrFails` | scrapping/etherscan_scrapper.py:146-151 | When no poll has two newest entries with the same ctime, a page cannot both complete its download and time out. |
| `Etherscan.RunDetermined` | scrapping/etherscan_scrapper.py:55-84 | When no poll has a ctime tie, the visit decides the attempts: two valid runs that both agree with the page outcomes are the same run. |
| `Etherscan.NoneLeftPending` | scrapping/etherscan_scrapper.py:30-95 | When no page count is negative, no address ends `pending`. |
| `Etherscan.PageFilesMatchGlob` | scrapping/etherscan_scrapper.py:104 | Every renamed page file matches the merge's glob, and the merged file never does. |
| `Etherscan.PageCountFromHref` | scrapping/etherscan_scrapper.py:52 | An href ending in `p=<n>` yields page count n. |
| `Etherscan.TenPagesThreeFailures` | scrapping/etherscan_scrapper.py:56-90 | Ten pages with three failures: threshold 3, so `success` with 3 errors. |
| `Etherscan.TenPagesFourFailures` | scrapping/etherscan_scrapper.py:56-84 | Ten pages whose fourth failure is page 10: `failed` with 4 errors. |
| `Browser.Driver.Get` | scrapping/etherscan_scrapper.py:44 | Each `driver.get` appends its URL to the driver's history. |
| `DeBank.DeBankScrapper.GetInfo` | scrapping/debank_scrapper.py:15-65 | If the cache file exists, the result is its contents (or its error) and no page is visited. Otherwise the result has one entry per address, in iteration order, each holding that page's record. The profile URLs are visited in order. A page whose `driver.get` raises ends the call after exactly the pages up to it. |
| `DeBank.DeBankScrapper.constructor` | scrapping/debank_scrapper.py:11-13 | Stores the driver and the optional cache file. |
| `DeBank.RecordOf` | scrapping/debank_scrapper.py:24-63 | A record's keys are among `image_url`, `tag` and `username`. |
| `DeBank.RecordFields` | scrapping/debank_scrapper.py:30-63 | Each key is present exactly when its own lookup succeeded, and holds what that lookup read. |
| `DeBank.LookupsIndependent` | scrapping.py:30-63 | If every lookup fails, the record is empty. Changing the avatar, tag or username lookup's outcome changes only that lookup's key. |
| `DeBank.ParseScrappedInfo` | scrapping/debank_scrapper.py:67-94 | One protocol per entry, in entry order. |
| `DeBank.ToProtocol` | scrapping/debank_scrapper.py:80-91 | `hex_address` is the key and `url` is the profile URL of the key. `description` is the tag plus the fixed suffix. `image_url` is the record's or else the Ethereum logo. |
| `DeBank.TagFallback` | scrapping.py:80 | The tag is the record's `tag`, else its `username`, else `Unknown`. |
| `DeBank.NameIsSecondSegment` | scrapping.py:82 | If the tag contains `:`, the name is the text between the first `:` and the next `:` or the end. Otherwise the name is the username or `Unknown`. |
| `DeBank.ScrapeThenParse` | scrapping/debank_scrapper.py:38-81 | From a scraped page, the tag is the page's tag text, else its username, else `Unknown`. The image is the avatar, else the logo. |
| `DeBank.ReadAddressesFromCsv` | scrapping/debank_scrapper.py:96-123 | A missing file gives `None`. An unparsable file or a missing `To`/`Method` column gives the empty result. Every kept pair reaches the threshold, was seen at least once, and has a Method other than `Approve`/`Execute`. |
| `DeBank.ReadAddressesCounts` | scrapping.py:107-118 | A pair is in the result exactly when some row carries it, its Method is not excluded, and its number of occurrences reaches the threshold. Its count is that number. |
| `DeBank.KeptMembers` | scrapping/debank_scrapper.py:109-110 | A pair is counted exactly when some row has both cells and its Method is not `Approve`/`Execute`. |
| `DeBank.CountIsMultiplicity` | scrapping/debank_scrapper.py:110 | The count of a pair is its multiplicity among the kept rows. |
| `Bot.RecommendationBot.DisplayProtocolCard` | bot.py:53-94 | The card is shown exactly when `protocols[position]` is a valid Python index, where a user never seen is at 0. Its keyboard is the navigation keyboard of the position and its caption shows the protocol. An SVG or empty image is replaced by the Ethereum logo. |
| `Bot.RecommendationBot.ShowRecommendations` | bot.py:30-36 | The protocols take the shuffled order and the user's position becomes 0. Other users keep their positions. The first card is shown when there is any protocol. Positions in range stay in range when the list is not empty. |
| `Bot.RecommendationBot.ProcessCallback` | bot.py:96-120 | A callback that does not split into an action and an integer changes nothing. Otherwise only this user's position changes: `prev_k` sets k - 1 and `next_k` sets k + 1. Positions in range stay in range when the callback comes from a card in range. |
| `Bot.RecommendationBot.constructor` | bot.py:18-19 | Starts with no user positions. |
| `Bot.KeyboardButtons` | bot.py:60-70 | Back (`prev_{position}`) is offered exactly when position > 0. Forward (`next_{position}`) is offered exactly when position < len - 1. No other button is offered, and with both present there is a single row. |
| `Bot.CallbackTargets` | bot.py:99-106 | The back button of position k leads to k - 1, and the forward button to k + 1. Both pass the handler's filter. |
| `Bot.SplitCallback` | bot.py:99 | `"{action}_{k}".split('_')` gives back the action and the text of k. |
| `Bot.OfferedButtonsStayInRange` | bot.py:55-108 | Following a button of a card whose position is in range leads to a position in range. |
| `Bot.PyIndex` | bot.py:55 | A Python index in range names an element, and a negative one counts from the end. |

## Left out

- Selenium: element waits, CSS selectors, clicks and `setup_chrome_driver`. Each lookup is an input outcome. A wait that times out is the same as a lookup that failed.
- yadisk: `exists` raising is not modelled. The store's answer is taken as given. An upload is one boolean outcome.
- pandas: CSV files are sequences of rows. `read_csv` failing is one `None`. Column types, `to_csv` formatting and the row order of `value_counts`' result are not modelled. `DeBank.ReadAddressesFromCsv` gives a map from pair to count instead of a list sorted by count.
- Time: `time.sleep` and `time.time`. The 30-second timeout of the download wait is the end of a given sequence of folder snapshots.
- `os.rename` across file systems, directories listed by glob, and glob magic characters inside an address are not modelled. Renaming and creating files take the creation time given in the input.
- JSON: `json.load` and `json.dump`. A record value is always a string. A `get_attribute` that returns `None` is not modelled.
- aiogram: `send_photo`, `delete_message` and `answer_callback_query` are not modelled. A handler returns the card it would send. `random.shuffle` is given as its resulting order. `mimetypes.guess_type` is an abstract SVG test.
- The welcome and project-information handlers only send fixed text.
- The `__main__` blocks, `load_dotenv`, logging and printing.
- The module-level `read_addresses_from_csv` of scrapping/etherscan_scrapper.py is only used by its `__main__` block.
- etherscan_api_test.py is not part of this model.
- `Text.ParseInt` follows `int()` only on an optional sign and ASCII digits. Python also accepts surrounding whitespace, underscores between digits (`int("1_0") == 10`) and non-ASCII digits. None of these is modelled.
- `Etherscan.ParsePageCount` inherits this from `Text.ParseInt`. An href ending `p=1_0` is 10 pages in Python, but in the model it is an unreadable count, so the address is `failed`.
- `Bot.ParseCallback` inherits the same. Python reads callback data `next_ 3` as position 4, and the model rejects it. The bot's own buttons never produce such data.
- `Etherscan.EtherscanScrapper.WaitForDownload`: each poll is a snapshot of the whole folder, given as input. The model does not keep a page file renamed for an earlier page in place until the merge globs: the folder between polls is arbitrary. Given no polls at all, the model times out without looking at the folder, while the source always globs the folder once before its first timeout check (scrapping/etherscan_scrapper.py:146-157). A caller that wants that behaviour passes at least one poll.
- `Etherscan.EtherscanScrapper.GetInfo`: the final record of each address is tied to its visit only when the addresses are distinct, as they are in the source's set. For repeated addresses the chain of passes still holds, but the final map is not related to them.
- `Etherscan.RunDetermined` needs every poll to have a single newest entry. On a ctime tie, `max` keeps the entry glob lists first. The model leaves that choice open, so a page's result is then not decided by the visit.
- `Etherscan.EtherscanScrapper.ScrapeAddress` takes a failing `driver.get` of the listing page to mean the same thing as a missing pagination link. The source treats both as `failed` with no pages.
