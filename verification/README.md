# Verification of the operating-system simulation

The repository simulates an operating system as three services. Memory keeps frames, a bitmap,
n-level page tables and a swap file. A CPU translates addresses through a TLB and keeps a
write-back page cache. The kernel schedules processes through six queues, CPUs and IO devices.
This project models the three cores and their cooperation in Dafny and proves what each step, each
module and each whole run keeps. A call between services is one direct, atomic call.

How the files fit together:

- `TablaPaginas`, `Memoria`, `RefinamientoMemoria`, `CorridasMemoria`, `ManejadorMemoria`: page tables
  as trees, the memory state machine, its refinement to a map from pid to private pages, whole runs,
  and whole runs with the suspend handler as written.
- `MemoriaFisica`, `Barridos`, `ModuloMemoria`, `ServidorMemoria`: the same module as a class over
  arrays, updated in place, each method proved against the state machine.
- `Traduccion`, `TLB`, `ColaTlb`, `CachePaginas`, `CpuModelo`, `CorridasCpu`, `RelojCache`, `Procesador`:
  address digits, TLB under LRU and FIFO, CLOCK and CLOCK-M, the CPU state machine, its runs against
  flat private memories, CLOCK against a second-chance queue, and the CPU as a class on top of the
  memory class.
- `Kernel`, `KernelPasos`, `KernelInvariante`, `ModuloKernel`: the kernel state machine, its
  invariant, and the kernel's global state as a class.
- `SistemaConjunto`, `SistemaManejador`, `ServidorKernel`: kernel and memory in one run, the same with
  the suspend handler as written, and the two classes together, one method per step.
- `OrdenColas`, `OrdenIO`, `Despachos`, `Sesiones`: who goes first, in the queues of the planners and at
  the devices, what a dispatch chooses, IO sessions.
- `Admision`, `RondaAdmision`, `Rafagas`, `Estimaciones`: optimal admission, burst estimates alone and
  along runs.
- `Aritmetica`, `Secuencias`, `Propiedad`, `Multisuma`, `Ordenamiento`: arithmetic, sequences,
  ownership of cells, sums of multisets, sorting.

`dafny verify dfyconfig.toml` checks everything.

Where the code and what one would expect of it differ, the model follows the code, and an exact
condition says when they agree:

- Above the last level the page-table construction asks for ceil(remaining / E) entries whatever
  the level, so the first level-2 table absorbs every page. Lookup is right for pages below E with
  one level and below E squared with more (`TablaPaginas.BusquedaCorrecta`).
- Asking for no frames yields one, so an empty process would hold a frame its table does not show
  (`CorridasMemoria.AlmacenarExacto`).
- The suspend handler stores back a process record read before the swap block was recorded, so the
  recorded start is 0 for ever. It is right exactly when nobody is in swap and the swap table is empty
  or large enough (`ManejadorMemoria.ManejadorConSwapLibre`, `ManejadorMemoria.ManejadorEnCorridas`,
  `SistemaManejador.AcuerdoConManejador`); otherwise a process is shown another's page
  (`ManejadorMemoria.ManejadorConfundePaginas`). `CorridasMemoria` and `SistemaConjunto` have the
  composition of the helper functions, which is always right; the classes have the handler as written.
- Reading goes through runes, so only bytes below 128 come back as they were
  (`MemoriaFisica.TextoFiel`); the cache theorems ask for such bytes.
- The cached write tests against 64, not the page size (`CpuModelo.EscriturasCoinciden`).
- The cache index is keyed by page alone, so a load may overwrite another process's only copy
  (`CorridasCpu.EscrituraPerdida`); `CpuModelo.OtroProcesoPisa` says when it does, and
  `CorridasCpu.CacheTransparente` that nothing else goes wrong.
- A suspension timer looks only at whether a device has served the process since, so the timer of a
  dump or of an earlier wait can suspend it in a later one (`Sesiones.TemporizadorRezagado`).

## Model

| member | source | states |
|---|---|---|
| `CorridasMemoria.MemoriaVirtualTransparente` | memoria/utils/paginacion.go:14-71 | over every run of stores, reads, writes, suspensions, resumes and finishes by any number of processes, the pages of each process (its frames in the order of its table's leaves, or its swap block) are those of an abstract map from pid to private pages that starts at zero; the invariant (frames, bitmap, tables and swap in step, free frames all zero) holds at every point. Suspension is the composition of the helpers |
| `CorridasMemoria.LecturasTransparentes` | memoria/utils/paginacion.go:14-23 | in any such run every read of any page number (the walk of its digits through the process's table, then leer in the frame found) answers the bytes of the abstract private page, each through its rune, and so exactly those bytes if and only if all are below 128; it is refused exactly when the number, modulo entries per table to the levels, is no page of the process below the table's capacity |
| `ManejadorMemoria.ManejadorEnCorridas` | memoria/utils/procesosController.go:40-77 | the same for memory as written, whose suspend handler stores back a stale record: over runs of that handler the invariant and the abstract map hold at every point if and only if each suspension finds nobody in swap and a swap table that is empty or at least as large as the process |
| `CorridasMemoria.Aislamiento` | memoria/utils/paginacion.go:43-71 | between any two points of a run without a store, write or finish of process q, q is present at both or neither and sees the same pages, however much is suspended and resumed in between, q included |
| `SistemaConjunto.AcuerdoSiempre` | memoria/utils/procesosController.go:94-164 | in every reachable state of kernel and memory together, each pid is absent from memory exactly when NEW or finished, resident exactly when READY, EXECUTE or BLOCKED, and in swap exactly when suspended; all kernel and memory invariants hold too |
| `SistemaConjunto.BytesPrivados` | kernel/utils/planificadores/largo.go:36-84 | over any stretch of any run of the joint system, a process in memory at both ends that did not write in between has the same pages, across admission, dispatch, IO, dumps, suspension and other processes' lives |
| `SistemaManejador.AcuerdoConManejador` | memoria/utils/procesosController.go:40-77 | kernel and memory together with the suspend handler as written: every state of a run is good, in agreement and with all invariants, if and only if each suspension of the run finds the swap table free in that sense |
| `SistemaManejador.EscritaEsCorrida` | memoria/utils/procesosController.go:40-77 | such a run is one of the joint system, so the theorems about its runs hold of it |
| `SistemaConjunto.GuardasCiertas` | memoria/utils/procesosController.go:130-135 | in a reachable state a NEW pid is unknown to memory, a SUSP_READY pid is in swap (so the "not suspended" answer of resume is never given), the process of a busy CPU is resident, and a pid the suspension timer acts on is resident |
| `OrdenIO.PorOrdenDeLlegada` | kernel/utils/handlers/ioHandler.go:80-111 | in every reachable state the requests for a device, read off the events of the run, are the services it has begun, read off its instances, followed by its waiting queue: first come, first served |
| `OrdenColas.ColaPorOrden` | kernel/utils/planificadores/estadosController.go:52-60 | in every reachable state, for READY under FIFO and for NEW and SUSP_READY under FIFO admission: those who came into the state, in order, are those who have left it, in order, followed by the queue |
| `RondaAdmision.PmcpOptima` | kernel/utils/planificadores/largo.go:242-279 | one smallest-first round of pasar_desde_new admits at least as many processes as any set of NEW processes whose page demand fits the free frames |
| `CorridasCpu.CacheTransparente` | cpu/utils/utils.go:267-392 | any interleaving of READ and WRITE by any processes with fixed disjoint tables, through TLB and write-back cache (CLOCK or CLOCK-M): at every point every process sees its flat private memory if and only if no load of the run overwrites another process's entry whose contents differ from its frame |
| `CorridasCpu.LecturasTransparentes` | cpu/utils/utils.go:330-392 | and until the first such load every READ answers as flat memory does |
| `TLB.LruContieneLasRecientes` | cpu/utils/utils.go:850-897 | under LRU with a strictly increasing clock, after any access sequence of one process the TLB of capacity c indexes exactly the min(c, distinct pages) most recently used pages |
| `TLB.LruInclusion` | cpu/utils/utils.go:850-897 | the contents at a capacity are contained in the contents at any larger one |
| `ColaTlb.FifoContieneLasUltimas` | cpu/utils/utils.go:850-897 | under FIFO, after any access sequence of one process the TLB of capacity c indexes exactly the last min(c, loads) pages loaded, the loads being defined on the accesses by a queue; the next access hits exactly if its page is one of them |
| `RelojCache.ClockEsSegundaOportunidad` | cpu/utils/utils.go:816-825 | over any run of READ and WRITE by one process from an empty cache, the pages in a CLOCK cache, their order from the hand and their reference bits are those of a second-chance queue defined on the accesses |
| `Estimaciones.EstimadosPorHistoria` | kernel/utils/planificadores/medio.go:63-80 | under SJF, after any run of the joint system each live process's estimate is the initial one updated with exactly the bursts that process ran, in order |
| `TablaPaginas.ConstruirNivel` | memoria/utils/paginacion.go:90-134 | the recursive loop with its advancing frame index builds the closed-form tree, and leaves the index where the closed form says, for every level, E and number of frames |
| `TablaPaginas.CrearTabla` | memoria/utils/paginacion.go:81-88 | the table of a frame list is the closed-form tree from index 0 |
| `TablaPaginas.BusquedaCorrecta` | memoria/utils/paginacion.go:269-294 | walking the built tree with the digits of page p yields the frame of p if and only if p is below the capacity the construction has: E for one level, E squared for more |
| `TablaPaginas.BusquedaExacta` | memoria/utils/paginacion.go:269-294 | what the walk answers for every page number whatever: with q the number modulo E to the levels, the frame at place q of the list if q is below its length and the capacity; otherwise no frame, -1 when only the last table is too short and an index panic before that |
| `TablaPaginas.RecorridoEnOrden` | memoria/utils/paginacion.go:312-346 | the in-order leaves of the tree are pages 0..n-1 with their frames if and only if there are two or more levels or n is at most E |
| `TablaPaginas.ObtenerMarcoDesdeTabla` | memoria/utils/paginacion.go:269-294 | the loop over the digits gives that lookup, -1 and index panic included |
| `TablaPaginas.RelinkearArbol` | memoria/utils/paginacion.go:156-195 | replacing the frame of each page in the tree of one frame list gives the tree of the other |
| `Traduccion.ExtraerEntradasYDesplazamiento` | cpu/utils/utils.go:729-742 | page and offset recompose the address, the offset is inside the page, and the entries are the base-E digits of the page |
| `Traduccion.DigitosRecomponen` | cpu/utils/utils.go:729-742 | the digits, most significant first, add up to the page number modulo E to the number of levels |
| `Memoria.MarcosBuscados` | memoria/utils/paginacion.go:136-154 | the search fails exactly when there are fewer free frames than asked (one, when none are asked), and otherwise yields distinct free frames with no free frame skipped |
| `Memoria.HuecoCaracterizado` | memoria/utils/swap.go:180-210 | first fit: no earlier position starts a free run of that length, and the chosen one is free or is the end of the table |
| `Memoria.InicialBien` | memoria/utils/init.go:33-53 | the empty memory meets the invariant |
| `Memoria.InvVisible` | memoria/utils/paginacion.go:269-294 | in a good state every resident process's frames exist and every suspended one's block lies inside the swap file |
| `RefinamientoMemoria.AlmacenarRefina` | memoria/utils/paginacion.go:206-222 | a store is refused exactly when pages exceed free frames and then changes nothing; otherwise it adds one all-zero process, takes that many frames, and nobody else sees a change |
| `RefinamientoMemoria.SuspenderRefina` | memoria/utils/procesosController.go:40-77 | suspending (helpers composed) keeps the invariant and every process's pages, the suspended one's included |
| `RefinamientoMemoria.ReanudarRefina` | memoria/utils/procesosController.go:117-164 | resuming needs as many free frames as pages; with fewer it changes nothing, otherwise every page comes back through the relinked table |
| `RefinamientoMemoria.FinalizarRefina` | memoria/utils/procesosController.go:79-102 | finishing removes exactly that process, resident or suspended, and leaves its frames free and zero |
| `RefinamientoMemoria.EscribirRefina` | memoria/utils/paginacion.go:25-41 | a write at any page number changes the bytes of that page of that process only, or nothing if the number is outside the process or the datum would cross the end of the page |
| `RefinamientoMemoria.MarcoPropio` | memoria/utils/paginacion.go:269-294 | translation of a page of the process answers with the frame at that place of its own list |
| `RefinamientoMemoria.MarcoExacto` | memoria/utils/paginacion.go:269-294 | for a process in memory and any page number, translation finds one of the process's own frames or nothing, and finds one exactly for the numbers of its pages |
| `RefinamientoMemoria.LosDemasIntactos` | memoria/utils/paginacion.go:43-71 | a step that touches only free cells or those of one process leaves every other process's pages alone |
| `CorridasMemoria.PasoRefina` | memoria/utils/procesosController.go:14-164 | each single request keeps the invariant and matches the abstract request |
| `CorridasMemoria.MarcosConservados` | memoria/utils/paginacion.go:197-204 | free frames plus the frames of all resident processes add up to the memory, and the same for swap pages and suspended processes |
| `CorridasMemoria.MarcosDistintos` | memoria/utils/paginacion.go:269-294 | two page numbers, of one process or two, translate to the same frame if and only if they are of one process and equal modulo entries per table to the levels |
| `CorridasMemoria.DireccionesDistintas` | cpu/utils/utils.go:745-747 | so physical addresses coincide exactly for the same process, page and offset |
| `CorridasMemoria.AlmacenarExacto` | memoria/utils/paginacion.go:206-222 | an accepted store keeps the invariant if and only if the size is at least 1 and the pages fit the table's in-order capacity |
| `CorridasMemoria.SwapSinRestos` | memoria/utils/swap.go:120-163 | in every run the swap pages that belong to nobody are zero: what a process had there is gone once it is back in memory or finished |
| `ManejadorMemoria.ManejadorExacto` | memoria/utils/procesosController.go:58-71 | the suspend handler as written, which stores back a stale record, keeps the invariant if and only if first fit chooses the block start recorded before; then it equals the composition of the helpers |
| `ManejadorMemoria.GuardaExacta` | memoria/utils/procesosController.go:58-71 | where every recorded start is 0, as it always is in the code as written, first fit agrees with the record if and only if nobody is in swap and the swap table is empty or has room for the process |
| `ManejadorMemoria.ManejadorConSwapLibre` | memoria/utils/procesosController.go:40-77 | so there the handler keeps the invariant if and only if the swap table is free in that sense |
| `ManejadorMemoria.PasoManejadorExacto` | memoria/utils/procesosController.go:14-164 | one request of memory as written keeps starts at 0, and keeps the invariant and matches the abstract request if and only if it is no unguarded suspension |
| `ManejadorMemoria.InicioExacto` | memoria/utils/swap.go:304-310 | with everything else as it is, the invariant holds of a recorded block start if and only if it is the right one |
| `ManejadorMemoria.ManejadorConfundePaginas` | memoria/utils/procesosController.go:58-71 | a good state of two processes in which that handler makes one see the other's swapped page |
| `Barridos.BarridoCompleto` | memoria/utils/paginacion.go:312-346 | the sweep over distinct marked frames empties and frees exactly those and returns the pages numbered in order |
| `Barridos.BarridoSinMarcar` | memoria/utils/paginacion.go:312-346 | the sweep leaves frames alone that are unmarked or do not exist, and returns no page for them |
| `MemoriaFisica.EscribirEnMarco` | memoria/utils/paginacion.go:73-79 | bytes written inside one frame of physical memory change that frame alone |
| `MemoriaFisica.LeerDentro` | memoria/utils/paginacion.go:14-23 | bytes read inside a frame are that frame's |
| `MemoriaFisica.TextoFiel` | memoria/utils/paginacion.go:14-23 | leer, which converts each byte through a rune, returns the stored bytes if and only if all are below 128 |
| `MemoriaFisica.TextoDescifrado` | memoria/utils/paginacion.go:14-23 | and what it returns decodes, two bytes for those of 128 and more, to the stored bytes: nothing is lost |
| `ModuloMemoria.MemoriaPrincipal.constructor` | memoria/utils/init.go:33-53 | the new module models the initial state: whole frames only, all zero and free |
| `ModuloMemoria.MemoriaPrincipal.Leer` | memoria/utils/paginacion.go:14-23 | reads the bytes in range, each through its rune |
| `ModuloMemoria.MemoriaPrincipal.Escribir` | memoria/utils/paginacion.go:25-41 | refuses a datum longer than what is left of the page, else writes exactly it |
| `ModuloMemoria.MemoriaPrincipal.EscribirUsuario` | memoria/utils/paginacion.go:25-41 | translation followed by the write is the model's write at any page number; -1 if either is refused |
| `ModuloMemoria.MemoriaPrincipal.LeerUsuario` | memoria/utils/paginacion.go:14-23 | translation followed by the read answers the bytes of the frame found, or nothing if there is none |
| `ModuloMemoria.MemoriaPrincipal.ActualizarPagina` | memoria/utils/paginacion.go:73-79 | overwrites physical memory from an index, nothing else |
| `ModuloMemoria.MemoriaPrincipal.BuscarMarcosDisponibles` | memoria/utils/paginacion.go:136-154 | the loop finds the lowest free frames, one too many included for a request of none |
| `ModuloMemoria.MemoriaPrincipal.AsignarFramesAProceso` | memoria/utils/paginacion.go:197-204 | marks exactly the given frames |
| `ModuloMemoria.MemoriaPrincipal.AlmacenarProceso` | memoria/utils/paginacion.go:206-222 | the new state is the model's store; -1 exactly when there was no room |
| `ModuloMemoria.MemoriaPrincipal.LiberarHoja` | memoria/utils/paginacion.go:312-346 | one leaf: copied out, zeroed, released |
| `ModuloMemoria.MemoriaPrincipal.RecorrerTablaYLiberarMarcos` | memoria/utils/paginacion.go:312-346 | the recursive sweep over a tree is the sweep over its leaves in order |
| `ModuloMemoria.MemoriaPrincipal.EliminarMarcosFisicos` | memoria/utils/paginacion.go:296-310 | for any pid, known or not: the sweep over the leaves of its record, in which unmarked frames are skipped |
| `ModuloMemoria.MemoriaPrincipal.BarridoDeResidente` | memoria/utils/paginacion.go:296-310 | for a resident process that sweep empties and frees all its frames and returns its pages in order |
| `ModuloMemoria.MemoriaPrincipal.GenerarMemoryDump` | memoria/utils/paginacion.go:348-399 | the dump of any known process is the frames of its leaves in order; unknown processes have none |
| `ModuloMemoria.DumpDeResidente` | memoria/utils/paginacion.go:348-399 | for a resident process of a good memory that is its pages 0..n-1 |
| `ModuloMemoria.MemoriaPrincipal.ObtenerIndiceSwapDisponible` | memoria/utils/swap.go:180-210 | nested loops give first fit, or extend the table, and mark the block |
| `ModuloMemoria.MemoriaPrincipal.EscribirEnSWAP` | memoria/utils/swap.go:274-316 | pages in consecutive places of the first fitting block, its start recorded when there is a page |
| `ModuloMemoria.MemoriaPrincipal.EliminarPaginasSWAP` | memoria/utils/swap.go:120-163 | the block is read back page by page, zeroed and released |
| `ModuloMemoria.MemoriaPrincipal.EscribirPaginas` | memoria/utils/paginacion.go:43-71 | pages land in the given frames, the frames become marked, and the links pair them |
| `ModuloMemoria.MemoriaPrincipal.ActualizarTablaPaginas` | memoria/utils/paginacion.go:156-195 | the tree is relinked to the new frames |
| `ModuloMemoria.MemoriaPrincipal.SuspenderProceso` | memoria/utils/procesosController.go:40-77 | the handler as written: the stale record overwrites the one with the block start |
| `ModuloMemoria.MemoriaPrincipal.ReanudarProceso` | memoria/utils/procesosController.go:117-164 | error for a process not suspended, unavailable without room, else the model's resume |
| `ModuloMemoria.MemoriaPrincipal.FinalizarProceso` | memoria/utils/procesosController.go:79-102 | releases frames or block and forgets the process; a pid it does not know changes nothing |
| `ServidorMemoria.Atender` | memoria/utils/procesosController.go:14-164 | one request served by the module, the suspend handler as written included, is one step of the runs of memory as written, and a read returns what the model reads |
| `TLB.AccesoTransparente` | cpu/utils/utils.go:466-507 | one translation answers what the page table says and keeps every slot truthful, with several pids sharing page numbers and orphaned slots |
| `CpuModelo.TraducidaQueda` | cpu/utils/utils.go:466-507 | a page just translated is in the TLB with its frame |
| `TLB.TlbTransparente` | cpu/utils/utils.go:466-507 | the same over any interleaving of accesses by any processes |
| `TLB.MasViejoEsMinimo` | cpu/utils/utils.go:850-897 | the LRU victim is the first slot with the least timestamp |
| `TLB.VictimaEsUltima` | cpu/utils/utils.go:850-897 | that slot belongs to the least recently used page |
| `TLB.RecientesEnOrden` | cpu/utils/utils.go:696-723 | the list of recent pages is in order of last use |
| `TLB.RecientesDistintas` | cpu/utils/utils.go:696-723 | the list has each accessed page once and no other |
| `ColaTlb.FifoSinInclusion` | cpu/utils/utils.go:850-897 | unlike LRU, a larger FIFO TLB may lack a page that a smaller one holds: five accesses |
| `TLB.TablaTlb.BuscarMarcoEnTLB` | cpu/utils/utils.go:696-723 | a hit needs page and pid, returns the slot's frame, and under LRU renews its timestamp |
| `TLB.TablaTlb.CargarTLB` | cpu/utils/utils.go:1090-1120 | appends while there is room, replaces otherwise |
| `TLB.TablaTlb.ReemplazarEnTLB` | cpu/utils/utils.go:850-897 | FIFO slot or oldest timestamp replaced, index updated; refused on a TLB that is not full or an unknown algorithm |
| `TLB.TablaTlb.ActualizarTimestamp` | cpu/utils/utils.go:466-507 | only the timestamp of that page's slot changes |
| `CachePaginas.ClockElige` | cpu/utils/utils.go:816-825 | CLOCK touches only R bits; it picks the first R=0 entry from the hand, clearing the bits from the hand up to it and keeping those beyond, or the starting hand with all bits cleared |
| `CachePaginas.ClockMElige` | cpu/utils/utils.go:827-847 | CLOCK-M touches only R bits and picks the first entry, from the hand, of the lowest nonempty class of original (R,D) bits; no bit changes for a victim of class (0,0), those from the hand up to a victim of class (0,1) are cleared, and all are for a referenced one |
| `CachePaginas.SegundaVuelta` | cpu/utils/utils.go:827-847 | after a failed first call all R bits are clear and the second call finds what the classes (1,0), (1,1) prescribe |
| `CachePaginas.InsertarBien` | cpu/utils/utils.go:750-813 | insertion keeps the index an exact bijection with the slots, within capacity, and the new page is found |
| `CachePaginas.InsertarOtras` | cpu/utils/utils.go:750-813 | every other page keeps its entry, except the evicted one, which is gone |
| `CachePaginas.CacheTabla.BuscarPaginaEnCache` | cpu/utils/utils.go:655-694 | a hit needs page and pid and sets R; a miss changes nothing |
| `CachePaginas.CacheTabla.BuscarVictimaCLOCK` | cpu/utils/utils.go:816-825 | the loop ends and its victim, bits and hand are the specified ones |
| `CachePaginas.CacheTabla.BuscarVictimaCLOCKM` | cpu/utils/utils.go:827-847 | two passes and at most one recursive call end with the specified victim, bits and hand |
| `CachePaginas.CacheTabla.PrimeraPasada` | cpu/utils/utils.go:827-847 | the first pass finds the first (0,0) entry from the hand and steps past it |
| `CachePaginas.CacheTabla.SegundaPasada` | cpu/utils/utils.go:827-847 | the second pass finds the first (0,1) entry, clearing R bits up to it |
| `CachePaginas.CacheTabla.Agregar` | cpu/utils/utils.go:750-813 | a free slot at the end, indexed |
| `CachePaginas.CacheTabla.Reemplazar` | cpu/utils/utils.go:750-813 | the entry indexed under that page number replaced in place, with R set |
| `CachePaginas.CacheTabla.Sustituir` | cpu/utils/utils.go:750-813 | the victim's slot and index entry replaced, the hand moved past it |
| `CpuModelo.AsegurarBien` | cpu/utils/utils.go:655-694 | bringing a page into the cache, with a write-back if the victim is dirty, keeps the CPU invariant and every frame outside the tables, and the page is cached for its process afterwards |
| `CpuModelo.AsegurarVista` | cpu/utils/utils.go:655-694 | it changes what nobody sees, but for a process whose entry for the same page number it overwrites: that one sees its frame from then on |
| `CpuModelo.LeerCpuBien` | cpu/utils/utils.go:1081-1088 | a cached read returns the bytes of the flat page and changes no view |
| `CpuModelo.EscribirCpuBien` | cpu/utils/utils.go:1061-1079 | a cached write changes the view of its own page as EscribirCache does, and no other |
| `CpuModelo.DevolverVictima` | cpu/utils/utils.go:1036-1059 | writing a dirty victim back touches its own page's frame only |
| `CpuModelo.EscriturasCoinciden` | cpu/utils/utils.go:1061-1079 | the cached write agrees with the uncached one on every page content if and only if the limit of 64 and the page size give the same verdict on the end of the datum, or there is nothing to write |
| `CpuModelo.OtroProcesoPisa` | cpu/utils/utils.go:750-813 | the cache index is keyed by page only: after the whole miss path of another process loading the same page number, the first one's view of that page is what it was if and only if its entry held what its frame holds; a clean entry always does |
| `CorridasCpu.EscrituraPerdida` | cpu/utils/utils.go:750-813 | a concrete loss: one process writes 7, another reads its own page of that number, and the first then reads 0 |
| `CorridasCpu.EscrituraEnPlana` | cpu/utils/utils.go:750-813 | the same three accesses on flat memory end with a read of 7 |
| `CorridasCpu.PasoExacto` | cpu/utils/utils.go:267-392 | one READ or WRITE commutes with flattening the memory of all processes if and only if its load loses nothing |
| `CorridasCpu.SoloSucias` | cpu/utils/utils.go:750-813 | only entries marked modified can be lost |
| `CorridasCpu.CacheDeUnProceso` | cpu/utils/utils.go:267-392 | a process alone on its CPU loses nothing: transparency at every step without conditions |
| `CorridasCpu.AjenosIntactos` | cpu/utils/utils.go:1036-1059 | no run changes a frame outside the tables |
| `CorridasCpu.EscrituraEnMarco` | cpu/utils/utils.go:320-327 | overwriting one frame is the write on flat memory |
| `CorridasCpu.LecturaEnMarco` | cpu/utils/utils.go:384-390 | reading one frame through leer is the read on flat memory |
| `Procesador.CpuFisica.ConseguirDireccionFisica` | cpu/utils/utils.go:466-507 | the address is frame times page size plus offset, whether the TLB or memory supplies the frame |
| `Procesador.CpuFisica.PedirContenidoPagina` | cpu/utils/utils.go:940-976 | the content is the whole page of the address, each byte through its rune |
| `Procesador.CpuFisica.InsertarOReemplazarEnCache` | cpu/utils/utils.go:750-813 | a page number already indexed is overwritten in place, else a free slot, else a victim with write-back of a dirty one: the state is the model's |
| `Procesador.CpuFisica.AsegurarEnCache` | cpu/utils/utils.go:284-311 | the search and miss path that READ and WRITE share |
| `Procesador.CpuFisica.EscribirCache` | cpu/utils/utils.go:1061-1079 | accepts a datum exactly if it ends within 64 bytes, and then cuts it at the end of the page and sets both bits |
| `Procesador.CpuFisica.Write` | cpu/utils/utils.go:274-329 | WRITE with cache, whoever else has entries in it, is the model's cached write |
| `Procesador.CpuFisica.Read` | cpu/utils/utils.go:330-392 | READ with cache, whoever else has entries in it, is the model's cached read |
| `Procesador.CpuFisica.WriteSinCache` | cpu/utils/utils.go:320-327 | WRITE without cache is the write on flat private memory, all or nothing |
| `Procesador.CpuFisica.ReadSinCache` | cpu/utils/utils.go:384-390 | READ without cache returns the bytes from the physical address on, through leer; within one page that is the read on flat private memory |
| `Procesador.TablaDeResidente` | memoria/utils/paginacion.go:269-294 | a resident process of a good memory state has a table that translates every page to its frame, within capacity |
| `Procesador.ArranqueBien` | cpu/utils/utils.go:633-653 | empty TLB and cache on a good memory state meet the CPU invariant for the tables of all resident processes within capacity |
| `Kernel.TransicionBien` | kernel/utils/planificadores/estadosController.go:150-347 | with the queues in order, a queue transition succeeds exactly for a live process in the state it leaves, moves it to the end of the other queue and keeps the partition; otherwise it changes nothing |
| `KernelInvariante.UnaSolaCola` | kernel/utils/planificadores/estadosController.go:52-84 | in a good state a live pid is in exactly the queue its state names, others are in none, and every issued pid is live or finished, not both |
| `KernelInvariante.HayConQueDespachar` | kernel/utils/planificadores/corto.go:35-51 | when the planner holds both tokens there is a free CPU and a ready process |
| `KernelInvariante.CpusDistintas` | kernel/utils/planificadores/corto.go:86-111 | executing processes hold different CPUs |
| `KernelInvariante.EnCpuEjecuta` | kernel/utils/general/misc.go:48-59 | the process recorded on a busy CPU is live and in EXECUTE |
| `KernelInvariante.UnaVezEnIO` | kernel/utils/handlers/ioHandler.go:31-112 | over all instances and waiting queues a pid appears once if it is BLOCKED or SUSP_BLOCKED and never otherwise |
| `KernelInvariante.ServidoBloqueado` | kernel/utils/handlers/ioHandler.go:31-75 | whoever an instance serves is BLOCKED or SUSP_BLOCKED, so neither transition of the end of IO fails |
| `Kernel.PedirIOBien` | kernel/utils/handlers/syscallHandler.go:124-142 | asking keeps a device work-conserving: a waiting queue means every instance is busy |
| `Kernel.TerminarIOBien` | kernel/utils/handlers/ioHandler.go:80-111 | so does the end of a service |
| `OrdenIO.SinInstanciasTermina` | kernel/utils/handlers/syscallHandler.go:91-150 | a request for a device that is unknown or has no instance ends the process, in the kernel and in memory, and frees its CPU |
| `Sesiones.SesionesCuentan` | kernel/utils/handlers/syscallHandler.go:124-142 | in every reachable state the session counter of a pid is the number of times devices have taken it to serve |
| `Sesiones.TemporizadorDeSuSesion` | kernel/utils/planificadores/medio.go:31-59 | a suspension timer acts if and only if the process is live and BLOCKED and no device has served it since the timer was armed |
| `Sesiones.TemporizadorRezagado` | kernel/utils/planificadores/medio.go:31-59 | a timer outlives its blocking: armed at one point, it acts on a later request for a device if and only if that device is busy and no device has served the process in between |
| `Sesiones.TrasPedir` | kernel/utils/handlers/syscallHandler.go:124-142 | a request leaves the process BLOCKED and served once more exactly if the device had an instance |
| `Sesiones.SesionesMonotonas` | kernel/utils/handlers/syscallHandler.go:124-142 | session counters never go down along a run |
| `Sesiones.TemporizadorDeUnDump` | kernel/utils/handlers/syscallHandler.go:164-207 | the input: a process that dumps, executes again and queues for a busy disk is suspended by the dump's timer |
| `KernelInvariante.CrearBien` | kernel/utils/planificadores/largo.go:59-69 | creation keeps the kernel invariant |
| `KernelInvariante.AdmitirBien` | kernel/utils/planificadores/largo.go:220-279 | an admission turn from NEW or SUSP_READY keeps it, and its head is in that state |
| `KernelInvariante.DespacharBien` | kernel/utils/planificadores/corto.go:213-259 | dispatch keeps it and sends the head of READY to EXECUTE |
| `KernelInvariante.SolicitarIOBien` | kernel/utils/handlers/syscallHandler.go:91-150 | an IO request keeps it |
| `KernelInvariante.SalirBien` | kernel/utils/handlers/syscallHandler.go:209-216 | leaving by EXIT, or by asking for a device nobody has, keeps it |
| `KernelInvariante.VolcarBien` | kernel/utils/handlers/syscallHandler.go:164-207 | a successful dump keeps it and the process ends in READY |
| `KernelInvariante.SuspenderBien` | kernel/utils/planificadores/medio.go:31-59 | the suspension step keeps it |
| `KernelInvariante.FinIOBien` | kernel/utils/handlers/ioHandler.go:31-112 | the end of IO keeps it: BLOCKED goes to READY, SUSP_BLOCKED to SUSP_READY |
| `KernelInvariante.ConectarBien` | kernel/utils/handlers/handshakeHandler.go:67-78 | a new CPU with its token keeps the CPU account if and only if no other has its name |
| `KernelPasos.KernelInicialBien` | kernel/utils/planificadores/largo.go:16-34 | an empty kernel with idle devices meets the invariant |
| `KernelPasos.ReordenarBien` | kernel/utils/planificadores/largo.go:185-218 | sorting a queue keeps it |
| `SistemaConjunto.LlamadasValidas` | memoria/utils/procesosController.go:94-164 | state by state, what memory knows about a live pid |
| `SistemaConjunto.PasoConserva` | kernel/utils/planificadores/largo.go:36-84 | every event keeps the joint invariant and every process's pages except the writer's own |
| `SistemaConjunto.UnaVida` | kernel/utils/planificadores/largo.go:71-92 | finished pids stay finished, and only finishing takes a process out of memory |
| `SistemaConjunto.PasoEscribir` | memoria/utils/paginacion.go:25-41 | a user write keeps the joint invariant and everyone else's pages |
| `Admision.RondaOptima` | kernel/utils/planificadores/largo.go:202-218 | exchange argument: any choice that fits is no larger than a smallest-first round, ties falling either way |
| `Admision.RondaCabe` | kernel/utils/planificadores/largo.go:202-218 | what a round takes is a set of waiting processes that fits |
| `Admision.RondaFifoPrefijo` | kernel/utils/planificadores/largo.go:242-279 | without sorting, the round admits exactly the longest prefix that fits |
| `Admision.FifoNoEsOptima` | kernel/utils/planificadores/largo.go:242-279 | without sorting the round is not optimal: a concrete queue |
| `Admision.FifoOptima` | kernel/utils/planificadores/largo.go:242-279 | when it is: first come first served admits as many as possible if and only if it admits the whole queue or one process more would not fit even among the lightest |
| `RondaAdmision.PasarDesdeNew` | kernel/utils/planificadores/largo.go:242-279 | the loop ends, keeps kernel and memory in agreement and everybody's pages, and what it admits is a complete smallest-first round, or the FIFO prefix; under smallest-first no set of NEW processes that fits the free frames is larger |
| `RondaAdmision.PasarDesdeSuspReady` | kernel/utils/planificadores/largo.go:220-240 | the resume loop ends, keeps agreement and pages, leaves NEW alone, and stops only when SUSP_READY is empty or its head does not fit |
| `RondaAdmision.PasarProcesosAReady` | kernel/utils/planificadores/largo.go:36-57 | one round: resumed first; nobody new is admitted while a suspended process still waits |
| `RondaAdmision.TurnoNew` | kernel/utils/planificadores/largo.go:259-274 | one turn: sort if smallest-first, ask memory, move the head to READY if it had room |
| `RondaAdmision.TurnoSusp` | kernel/utils/planificadores/largo.go:222-238 | the same for a suspended process |
| `RondaAdmision.IniciarProceso` | kernel/utils/planificadores/comunicacion.go:92-121 | memory accepts a new process exactly when its pages fit the free frames |
| `Rafagas.FormaCerrada` | kernel/utils/planificadores/medio.go:63-80 | the estimate after any history is the closed-form weighted sum of the bursts and the initial estimate |
| `Rafagas.PesosSumanUno` | kernel/utils/planificadores/medio.go:63-80 | those weights add up to one |
| `Rafagas.EstimadoAcotado` | kernel/utils/planificadores/medio.go:63-80 | for alpha in [0,1] the estimate stays between the least and the greatest value seen |
| `Estimaciones.EstimadosEntre` | kernel/utils/planificadores/medio.go:63-80 | the same bound for a live process in any reachable state |
| `Estimaciones.EstimadosFijos` | kernel/utils/planificadores/estadosController.go:221-255 | under FIFO every live process keeps its initial estimate |
| `Despachos.DespachoElige` | kernel/utils/planificadores/corto.go:213-259 | in a reachable state a dispatch moves one READY process to EXECUTE and changes no other: under SJF one of least estimate among all READY ones, under FIFO the head of READY |
| `Despachos.DespachoOcupa` | kernel/utils/planificadores/corto.go:86-111 | and it goes to the first free CPU, which there always is |
| `Despachos.CrearRegistra` | kernel/utils/planificadores/largo.go:59-69 | a created process is NEW with the size asked for and the initial estimate, under a pid nobody has had; no other record changes |
| `Estimaciones.SinHistoria` | kernel/utils/planificadores/largo.go:141-150 | a pid not issued yet has run no burst |
| `ModuloKernel.NucleoKernel.BuscarProcesoEnExecuteDeMenorRafagaRestante` | kernel/utils/planificadores/corto.go:154-187 | the first executing process whose estimate less its time executing is least, and that difference |
| `ModuloKernel.NucleoKernel.VerificarDesalojo` | kernel/utils/planificadores/corto.go:133-152 | preempt if and only if some ready process's estimate plus the elapsed time of each executing one is below that one's estimate, and then the victim is an executing process with the least left |
| `ModuloKernel.BuscarPIDEnCola` | kernel/utils/planificadores/estadosController.go:76-84 | the first position of the pid, or -1 exactly when it is not there |
| `ModuloKernel.AgregarProcesoACola` | kernel/utils/planificadores/estadosController.go:52-60 | appends unless present |
| `ModuloKernel.EliminarProcesoDeCola` | kernel/utils/planificadores/estadosController.go:62-74 | removes the first occurrence, or fails |
| `ModuloKernel.NucleoKernel.constructor` | kernel/utils/planificadores/largo.go:16-34 | the new kernel models the initial state |
| `ModuloKernel.NucleoKernel.Mover` | kernel/utils/planificadores/estadosController.go:150-347 | every queue transition, its two failure returns included |
| `ModuloKernel.NucleoKernel.EliminarProcesoDe` | kernel/utils/planificadores/estadosController.go:87-148 | the pid leaves the queue of the given state, or the answer is false and it was not there |
| `ModuloKernel.NucleoKernel.OrdenarPorTamanio` | kernel/utils/planificadores/largo.go:185-218 | a permutation of the queue with sizes not decreasing |
| `ModuloKernel.NucleoKernel.ElegirCPULibre` | kernel/utils/planificadores/corto.go:86-111 | the first free CPU becomes busy, or none is found |
| `ModuloKernel.NucleoKernel.BuscarCpu` | kernel/utils/general/misc.go:15-33 | the position of that name, or -1 when nobody has it |
| `ModuloKernel.NucleoKernel.AnotarPid` | kernel/utils/planificadores/comunicacion.go:34-42 | the CPU sent to remembers the pid |
| `ModuloKernel.NucleoKernel.LiberarCPU` | kernel/utils/general/misc.go:48-59 | that CPU becomes free and one token is added |
| `ModuloKernel.NucleoKernel.OrdenarReadyPorRafaga` | kernel/utils/planificadores/corto.go:189-211 | a permutation of READY with estimates not decreasing |
| `ModuloKernel.NucleoKernel.ExecuteABlocked` | kernel/utils/planificadores/estadosController.go:221-255 | the move, and the estimate renewed unless the algorithm is FIFO |
| `ModuloKernel.NucleoKernel.BloquearProceso` | kernel/utils/planificadores/medio.go:10-29 | the move and the session count the timer remembers |
| `ModuloKernel.NucleoKernel.VerificarExistenciaIO` | kernel/utils/handlers/ioHandler.go:221-230 | the device is known and has an instance |
| `ModuloKernel.NucleoKernel.BuscarInstanciaIOLibre` | kernel/utils/handlers/ioHandler.go:205-218 | the first free instance, or -1 when all are busy or the device is unknown |
| `ModuloKernel.NucleoKernel.BuscarInstanciaIO` | kernel/utils/handlers/ioHandler.go:233-244 | the position of that instance, or -1 when nobody has the name or the device is unknown |
| `ModuloKernel.NucleoKernel.PedirInstancia` | kernel/utils/handlers/syscallHandler.go:124-142 | the first free instance is taken and the session counted, or the process waits last and no instance changes |
| `ModuloKernel.NucleoKernel.DesbloquearProceso` | kernel/utils/handlers/ioHandler.go:45-75 | BLOCKED to READY with its notice, SUSP_BLOCKED to SUSP_READY |
| `ModuloKernel.NucleoKernel.EntregarInstancia` | kernel/utils/handlers/ioHandler.go:80-111 | the instance is freed, or handed to the head of the waiting queue, whose session begins; a disconnected one changes nothing |
| `ServidorKernel.ManejarInitProc` | kernel/utils/planificadores/largo.go:59-69 | creation on the kernel's state, ordered by size under smallest-first, is one step of the joint runs as written |
| `ServidorKernel.AdmitirNuevo` | kernel/utils/planificadores/largo.go:259-274 | so is a turn of admission from NEW |
| `ServidorKernel.AdmitirSuspendido` | kernel/utils/planificadores/largo.go:222-238 | so is a turn from SUSP_READY, in which memory never answers that the process was not suspended |
| `ServidorKernel.EsperarCpu` | kernel/utils/planificadores/corto.go:35-42 | so is the wait for a CPU token |
| `ServidorKernel.EsperarReady` | kernel/utils/planificadores/corto.go:35-42 | so is the wait for a ready token |
| `ServidorKernel.EjecutarUnProceso` | kernel/utils/planificadores/corto.go:213-259 | so is a dispatch, which with both tokens held finds a ready process and a free CPU |
| `ServidorKernel.RecibirHandshakeCPU` | kernel/utils/handlers/handshakeHandler.go:67-78 | so is the arrival of a CPU under a new name |
| `ServidorKernel.TerminarProceso` | kernel/utils/planificadores/largo.go:71-92 | memory forgets the process, then the kernel drops it and frees its CPU |
| `ServidorKernel.ManejarEXIT` | kernel/utils/handlers/syscallHandler.go:209-216 | EXIT on both modules is one step of the joint runs |
| `ServidorKernel.ManejarIO` | kernel/utils/handlers/syscallHandler.go:91-150 | IO is ignored unless the process exists and executes, and is one step otherwise: the end of the process if nobody has the device, else request and block |
| `ServidorKernel.ManejarDUMPMEMORY` | kernel/utils/handlers/syscallHandler.go:164-207 | a dump is one step, and memory hands out exactly the pages of the process, which it always knows |
| `ServidorKernel.SigueBloqueado` | kernel/utils/planificadores/medio.go:31-59 | the timer is one step: a suspension in both modules, memory's handler as written, or nothing |
| `ServidorKernel.ManejarFinIO` | kernel/utils/handlers/ioHandler.go:31-112 | the end of a service is one step; neither queue move fails |
| `ServidorKernel.EscribirDatoMemoria` | memoria/utils/paginacion.go:25-41 | a write of an executing process to any page number is one step; accepted exactly inside the process and the page |
| `ModuloKernel.NucleoKernel.ManejarFinIO` | kernel/utils/handlers/ioHandler.go:31-112 | also outside good states: nothing for a process that is gone, only the queue move if the instance was disconnected |
| `Ordenamiento.Ordenar` | kernel/utils/planificadores/largo.go:202-218 | sorting by a less test yields an ordered permutation; which of the equals comes first is not promised |

## Left out

- HTTP, JSON, configuration files, logging, delays, signals: plumbing. Calls between services succeed or fail by the receiver's logic.
- The io module, instruction decoding, pseudocode files, program counters and the fetch loop of the CPU.
- Metrics of the kernel (`actualizar_metricas`) and of memory: counters and times nothing else reads.
- File errors in swap and dump: the swap file is a sequence of pages, and a dump is the sequence of pages written.
- Goroutine interleavings inside a handler, mutexes and deadlocks, among them the failed-dump branch that locks a mutex it holds: handlers, queue moves with their state change, and a dispatch with its queue move are atomic steps.
- A suspension timer that fires while a dump is being written: a dump is one atomic step.
- The interrupt handshake and the exchange of processes under SRT; only its decision function is modelled. Statements about tokens and CPUs are for FIFO and SJF.
- Connection and disconnection of IO instances: the instance set is fixed. CPUs may connect.
- Channel capacity: semaphores are counters without the limit of 1000, and the wake-up channel of long-term admission is not modelled: a round may run at any moment.
- Liveness: nothing is claimed about when a round, a timer or an IO answer happens.
- Real time: burst lengths are parameters, and the TLB clock is assumed strictly increasing.
- `float64` rounding: estimates are `real`. Integer widths: sizes, addresses and pids are unbounded.
- Aliasing of page-table nodes: tables are immutable trees, and relinking rebuilds the tree rather than updating leaves through pointers.
- Aliasing of kernel queue and device slices: queues, CPU lists and devices are values that the methods replace.
- Requests about pids that memory does not know: finish, dump and the frame sweep serve them as the code does; for the others the kernel never makes them (`SistemaConjunto.GuardasCiertas`).
- What a CPU does with a refused translation: it goes on with the address -1. Accesses of a CPU here are to pages of their process; memory's answers are stated for every page number.
- A read that runs past the end of its page: in the memory runs reads stay in their page; `Procesador.CpuFisica.ReadSinCache` says which bytes a longer one returns.
- Unused code: the older swap functions, `EnviarDireccionAMemoria`, `IntentarPasarAIO`.
- CorridasCpu.CacheTransparente: the tables of the processes do not change during the run, and written data are below 128, end within the page and within 64 bytes, or miss both; `CpuModelo.EscriturasCoinciden` says what happens outside that guard.
- Procesador.CpuFisica.InsertarOReemplazarEnCache: the source copies the new entry over the old one and goes on with the new one, which shares its bytes and, for that access, has the same bits; here the slot takes the new object.
- Procesador.CpuFisica.Read: a cached read stays inside its page; past its end the source slices beyond the bytes of the page.
- CorridasMemoria.MemoriaVirtualTransparente: suspension is the helpers' composition, not the handler with its stale record; for the handler as written see `ManejadorMemoria.ManejadorEnCorridas`.
- SistemaConjunto.AcuerdoSiempre: sizes are at least 1 and fit the table's in-order capacity, and suspension is the helpers' composition, as above.
- RelojCache.ClockEsSegundaOportunidad: for CLOCK; for CLOCK-M the victim and every bit of one search are stated in `CachePaginas.ClockMElige`.
- ColaTlb.FifoContieneLasUltimas: one process, as for LRU; with several the index forgets slots, and `TLB.TlbTransparente` says that no answer is wrong.
- OrdenColas.ColaPorOrden: queues that are sorted, by size or by estimate, have no such order; `Despachos.DespachoElige` and `RondaAdmision.PmcpOptima` say what is taken from them.
- SistemaConjunto.BytesPrivados: suspension is the helpers' composition; for the handler as written it holds through `SistemaManejador.EscritaEsCorrida`.
- RefinamientoMemoria.SuspenderRefina: the helpers' composition; the handler's last assignment is in `ManejadorMemoria.ManejadorExacto`.
- RondaAdmision.PmcpOptima: about the round from NEW; for the round from SUSP_READY only its order and its stopping condition are stated.
- Estimaciones.EstimadosPorHistoria: burst lengths come with the events; that they are measured milliseconds is not modelled.
- Ordenamiento.Ordenar: the library sort is modelled by its result, an ordered permutation; its body is an insertion sort.
- ModuloMemoria.MemoriaPrincipal.EliminarPaginasSWAP: the block lies inside the index table, as it does after every suspension; reading past the end of the swap file is a file error.
- ServidorKernel.ManejarDUMPMEMORY: memory always has the pages of the process, so the branch of a dump that could not be written is reached only by the file errors above.
- ServidorKernel.TerminarProceso: the wake-up of long-term admission is not modelled, since a round may run at any moment.
