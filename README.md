# Singleton registry and thread-pool roster

A Dafny model of two concurrency helpers of a Python trading application.
Each operation that the Python code runs under a lock is modelled as one atomic step.

- **Singleton registry** (`singleton.dfy`, module `SingletonRegistry`). The `Singleton` decorator keeps a class-level dict `_singletons`. The dict maps a decorated class's `__name__` to the one object built for it, and every decorator shares it.
  - `instance` returns the stored object when the name is a key.
  - Otherwise it runs the constructor once with the accessor's arguments, stores the object and returns it.
  - Calling the decorated class directly (`__call__`) always raises `SingletonError`.

  The model has two parts:
  - `GetOrCreate` is a function on the table. It gives what one call returns, the table after it, and whether the constructor ran.
  - The classes `Registry` (the shared dict) and `Singleton` (one decorator) are proved against that function. `Registry` also keeps a ghost log of every constructor run. Its invariant `Valid()` says each key has had exactly one successful construction if it is present and none if it is absent.
- **Active-worker roster** (`threadpool.dfy`, module `ThreadPoolRoster`). `ThreadPool` keeps a list of the names of active workers.
  - `make_active` appends a name; duplicates are allowed.
  - `make_inactive` removes the first occurrence with Python's `list.remove`, which raises `ValueError` when the name is absent.
  - `threads_utilized` returns the list's length as `str(len(...))`.

  `Remove` models `list.remove`. `Decimal` models `str` on a non-negative int and is proved to round-trip through `DecimalValue`.
- `results.dfy` (module `Results`) holds the `Result` and `Outcome` datatypes. They stand for a return value or a raised exception.

Modelling choices:
- A decorated class is a value `Decorated(name, init)`.
  - `name` is its `__name__`.
  - `init` is its constructor: a function from the accessor's arguments to an object or an exception.
- Object identity is modelled as equality of values.
- The shared class-level dict is one `Registry` object. Each `Singleton` refers to it, so two decorators with the same class name meet in one entry.
- The source's docstring and its callers name the accessor `Instance`. The method the class defines is the lowercase `instance` (singleton.py:28). The model follows the definition; its method is called `Instance` only because of Dafny's naming style.

## Model

| member | source | states |
|---|---|---|
| `SingletonRegistry.GetOrCreate` | src/helpers/singleton/singleton.py:35-41 | The constructor runs exactly when the class name is not yet a key. A hit returns the stored object and leaves the table unchanged. A miss returns the constructor's object or exception. A returned object is the one now stored under the key. A failure leaves the table unchanged. No entry is lost or replaced, and no key other than the requested one is added. |
| `SingletonRegistry.InstanceIdempotent` | src/helpers/singleton/singleton.py:36-41 | After a successful call, another call with any arguments returns the same object, leaves the table as it is, and does not run the constructor. |
| `SingletonRegistry.HitIgnoresArguments` | src/helpers/singleton/singleton.py:37-38 | When the key is present, the call's whole effect does not depend on the arguments, and it returns the stored object. |
| `SingletonRegistry.FailureRetried` | src/helpers/singleton/singleton.py:39-41 | A constructor that raises on a miss leaves the table unchanged. The next call behaves as if the failed one never happened, and it runs the constructor again. |
| `SingletonRegistry.SameNameShared` | src/helpers/singleton/singleton.py:22-41 | Two decorated classes with the same name share one entry. The second gets the first one's object, and its own constructor never runs. |
| `SingletonRegistry.Successes` | src/helpers/singleton/singleton.py:40 | The count of successful constructor runs for a key is at most the length of the log. It is zero exactly when no successful run for that key is logged. |
| `SingletonRegistry.SuccessesAppend` | src/helpers/singleton/singleton.py:40 | Logging one more constructor run adds one success for a key exactly when that run built an object for that key. |
| `SingletonRegistry.Registry.constructor` | src/helpers/singleton/singleton.py:22 | The shared dict starts empty, with no construction logged, and satisfies the invariant. |
| `SingletonRegistry.Singleton.constructor` | src/helpers/singleton/singleton.py:24-26 | A decorator records the class it wraps and the shared registry. |
| `SingletonRegistry.Singleton.Instance` | src/helpers/singleton/singleton.py:28-41 | The call returns and stores exactly what `GetOrCreate` gives. It logs one constructor run exactly on a miss. It preserves the invariant: at most one successful construction per key, and a key is present exactly when its construction succeeded. |
| `SingletonRegistry.Singleton.Call` | src/helpers/singleton/singleton.py:43-51 | A direct call always raises `SingletonError` with the source's message. It has no modifies clause, so it changes nothing. |
| `SingletonRegistry.SameNameScenario` | src/helpers/singleton/singleton.py:22-41 | Two decorators named "PyLog" with different constructors both return the object the first one built. |
| `SingletonRegistry.RetryScenario` | src/helpers/singleton/singleton.py:35-41 | A call whose constructor raises returns the exception and stores nothing. The next call builds 5. A third call with other arguments still returns 5. |
| `ThreadPoolRoster.IndexOf` | src/helpers/thread_pool/threadpool.py:37 | The position found holds the name, and no earlier position does: it is the first occurrence that `list.remove` takes out. |
| `ThreadPoolRoster.Remove` | src/helpers/thread_pool/threadpool.py:37 | `list.remove` succeeds exactly when the name is in the list. The result is then the list with the first occurrence cut out. Otherwise it raises `ValueError`. |
| `ThreadPoolRoster.RemoveFirstOnly` | src/helpers/thread_pool/threadpool.py:35-37 | Removing a present name shortens the list by one and takes exactly one copy of that name out of the multiset. Entries before the first occurrence keep their place, and later entries move down by one, in order. |
| `ThreadPoolRoster.ActivateThenDeactivate` | src/helpers/thread_pool/threadpool.py:31-37 | Appending a name and then removing it always succeeds and gives back the roster's multiset. If the name was not already present, it gives back the exact roster. |
| `ThreadPoolRoster.Decimal` | src/helpers/thread_pool/threadpool.py:40 | `str(n)` is a non-empty string of decimal digits with no leading zero, and it is "0" exactly for zero. |
| `ThreadPoolRoster.DecimalRoundTrip` | src/helpers/thread_pool/threadpool.py:40 | The decimal string of n reads back as n, so the reported string determines the count. |
| `ThreadPoolRoster.ThreadPool.constructor` | src/helpers/thread_pool/threadpool.py:16-17 | A new pool's roster is empty. |
| `ThreadPoolRoster.ThreadPool.MakeActive` | src/helpers/thread_pool/threadpool.py:31-33 | The roster becomes the old roster with the name appended. There is no duplicate check, and earlier entries are unchanged. |
| `ThreadPoolRoster.ThreadPool.MakeInactive` | src/helpers/thread_pool/threadpool.py:35-37 | A present name: the call succeeds and its first occurrence is removed. An absent name: it raises `ValueError` and the roster is unchanged. |
| `ThreadPoolRoster.ThreadPool.ThreadsUtilized` | src/helpers/thread_pool/threadpool.py:39-40 | The call returns the decimal string of the roster's length, and that string reads back as the length. It has no modifies clause, so it changes nothing. |
| `ThreadPoolRoster.NewPoolUtilization` | src/helpers/thread_pool/threadpool.py:16-40 | A new pool reports "0". |
| `ThreadPoolRoster.RosterScenario` | src/helpers/thread_pool/threadpool.py:31-40 | Activating "w1" and "w2" and then deactivating "w1" leaves exactly ["w2"] and reports "1". |
| `ThreadPoolRoster.DuplicateScenario` | src/helpers/thread_pool/threadpool.py:31-37 | A name activated twice is still active after one deactivation. Deactivating an absent name raises `ValueError` and keeps the roster. |

## Left out

- Locks: the `threading.Lock` in `Singleton` and in `ThreadPool`. Each locked method is one atomic step, and interleavings are not modelled.
- Per-decorator lock versus shared dict: each decorator has its own lock while the dict is shared, so decorators for different classes do not exclude each other. This is a concurrency question and is not modelled.
- `threads_utilized` reads the list without the lock. In the model the read is atomic.
- `ThreadPool.__init__(size)` and `signal`: `size` only feeds a `Semaphore` that the pool never acquires or releases itself, so the model has no capacity and no bound on the roster's length. The `ValueError` that `Semaphore` raises for a negative size is not modelled either.
- The logger lookup in `ThreadPool.__init__`, the `log` property and the terminal colour code: these are I/O.
- SingletonRegistry.Decorated: a constructor is a function of its arguments. Side effects and dependence on outside state (files, configuration) are not modelled. So in the model a retry after a failure can only succeed with different arguments.
- SingletonRegistry.Singleton.Instance: object identity is modelled as value equality. The ghost construction log is what records whether the constructor ran.
- `__call__` with arguments: Python would raise `TypeError` before `SingletonError`. The model's `Call` takes no arguments.
- src/helpers/pylog/pylog.py: configuration parsing, log directories, file and console handlers and formatting are I/O around a foreign library, and are not part of this model.
- src/helpers/repeating_timer/repeating_timer.py: a daemon thread that sleeps and calls a function until an event is set. It is all time and threads, so it is not part of this model.
